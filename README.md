# NetFlow v9 NAT collector, modelled in Dafny

This project models the core of `python-netflow-nat-collector`:

- **The NetFlow v9 decoder (`nf.py`).**
  - The field catalogue `FieldTypeTable`, with `u_int` and `byte_a`.
  - The per-exporter template cache `TemplateMatcher`.
  - `Parser.parse`. It reads the 20-byte packet header of section 5.1 of RFC 3954, then walks the flow sets by their declared lengths. Template flow sets (id 0) register record types. Data flow sets (id above 255) with a known template yield back-to-back fixed-size records. Every other flow set is skipped.
- **`structuple` (`util.py`).** Builds a record type from a struct format and field names. Its instances unpack a buffer at an offset, and optional converters replace named fields.
- **The NAT-event sink (`daemon.py`).** `PgNelStoreProtocol` counts datagrams and records, and filters records down to NAT creation events. It turns each kept record into a seven-column row and hands the row buffer to the workers pool whenever it reaches `buffer_size`. `MultiProtocol` passes every datagram to its sinks in order. The workers turn a batch into the tab-separated text they copy into the database.
- **The libpcap reader (`pcap.py`).** `get_parser` and `PcapFile`, with `pcap_check`, `read_pcap_pac` and `read_packet`.

## Module layout

| file | module | what it models |
|---|---|---|
| `wrappers.dfy` | `Wrappers` | `Option`, and `Result` with the exceptions the source raises (`Error`) |
| `bytes.dfy` | `Bytes` | bytes, and the unsigned big- and little-endian integers `struct` reads from them |
| `text.dfy` | `Text` | `str()` of integers, hexadecimal digits, `str.join` and `str.split` on one character |
| `ip.dfy` | `Ip` | `ipaddress.ip_address(int)`, `int()` of an address, `str()` of an address |
| `structuple.dfy` | `Structuple` | `util.structuple`: the struct layout, the namedtuple binding by position, and converters |
| `catalog.dfy` | `FieldCatalog` | `u_int`, `byte_a`, the field catalogue, and `FieldTypeTable.get` / `get_by_name` |
| `templates.dfy` | `Templates` | `TemplateMatcher`: `update_teplate`, `add_static_template` and `match` |
| `netflow.dfy` | `Netflow` | the header record types, the parse as functions, and the `Parser` class whose loops are proved against them |
| `netflow_props.dfy` | `NetflowProperties` | what a parse promises: version check, skipping, record positions and count, isolation, the consumer's exception |
| `netflow_example.dfy` | `NetflowExample` | a complete sample datagram decoded end to end, and a 6-byte MAC shifting later field names |
| `nel_store.dfy` | `NelStore` | `PgNelStoreProtocol`, `MultiProtocol` and the batch text of `StorePgThreadPool.Worker.run` |
| `pcap.dfy` | `Pcap` | `get_parser`, `PcapFile`, and the input file as bytes plus a read cursor |

## How the model treats the source

**Where state changes in place, the model uses a class.**

- `TemplateMatcher` owns the cache `dyn` and the static templates `statics`.
- `Parser` owns its matcher.
- `PgNelStoreProtocol` owns `buffer`, `requests` (the batches given to `addRequest`) and the two counters.
- `PcapFile` owns `byteorder` and `linkType`.
- `InFile` owns the read cursor.

Each loop of the source becomes a `while` loop in a method: the flow-set loop, the template loop, the field loop, the data-record loop, the handler loop of `datagram_received`, the sink loop of `MultiProtocol` and the `while True` of `read_packet`. Each method is proved equal to a function of the inputs and the old state: `Walk`, `TemplateSet`, `TemplateFields`, `DataSet`, `Retain`/`AppendAll`, `Receive` and `Packets`. The properties are then proved about those functions.

**The parse generator is modelled eagerly.** `parse` is a lazy generator, and the sink consumes it while it runs. The model produces the records in yield order, the template cache after the walk, and a `Status`:

- `Finished`: the generator returned.
- `Failed(e)`: `struct.error` or another exception from decoding.
- `Closed`: the consumer raised on the last record listed, which closes the generator.
- `Diverges`: the loop never ends. This happens for a flow set of declared length 0, or a template of size 0 that fits. The records are then those yielded before the loop repeats.

The consumer's exception is the parameter `closeAfter`. For the sink it is `NelStore.Raises`, the records on which `_handle_flow_set` raises.

**Python behaviour reproduced as written:**

- `u_int(n)` gives one integer for n in {1, 2, 4, 8}. Any other n gives `nB`, which is n separate byte values. The namedtuple is built with `super().__new__`, so the number of values is never checked against the number of names. Names bind by position, and a name past the last value raises `IndexError` on access. `hasattr` lets that `IndexError` through, because it catches only `AttributeError`.
- `namedtuple` rejects a field name that is not an identifier, a Python keyword, or a repeated name. A template using both ICMP_TYPE ids (32 and 176) therefore fails to compile, and is not stored.
- Every `name:len` entry of `add_static_template` fails: either its base name is unknown, or the namedtuple rejects the `:`.
- `int(fs.EVENT_TIME_MSEC/1000)` is modelled as integer division.

**Behaviour of the code worth knowing:**

- **Unknown field ids.** `get` falls back to `(id, 0, u_int, 'FIELD_id')` (nf.py:146-147). The template's declared length then chooses, through `u_int`, between one integer and n bytes.
- **Sink isolation.** `MultiProtocol.datagram_received` catches no exception (daemon.py:141-143), so the first sink that raises keeps the datagram from every later sink.
- **Byte order of a capture file.** The code accepts the magic numbers 0xA1B2C3D4 and 0x4D3C2B1A, both read little-endian. The second is not the byte-swapped form of the first. The big-endian branch is therefore taken only for files starting `1A 2B 3C 4D`, and a real big-endian capture (`A1 B2 C3 D4`) is rejected as `UnsupportFileFormat`. `Pcap.BigEndianCaptureRejected` and `Pcap.SwappedMagicBytes` state this.

## Model

| member | source | states |
|---|---|---|
| Bytes.BigEndianOfBytes | netflow_collector/util.py:19-22 | a '!' integer field reads back the value it encodes, for every width |
| Bytes.LittleEndianOfBytes | netflow_collector/pcap.py:24 | a '<' integer field reads back the value it encodes |
| Bytes.BytesOfBigEndian | netflow_collector/util.py:19-22 | every byte string is the big-endian encoding of the integer read from it |
| Bytes.BytesOfLittleEndian | netflow_collector/pcap.py:24 | every byte string is the little-endian encoding of the integer read from it |
| Bytes.UnsignedOfEncode | netflow_collector/pcap.py:76-77 | in either byte order, decoding an encoded u32 gives the value back |
| Bytes.Unsigned | netflow_collector/util.py:19-22 | an unsigned integer read from w bytes, in either byte order, is below 256^w |
| Bytes.BigEndian2 | netflow_collector/nf.py:6 | a '!H' field is first byte * 256 + second byte |
| Bytes.BigEndian4 | netflow_collector/nf.py:5 | a '!I' field is the four bytes, most significant first |
| Bytes.LittleEndian4 | netflow_collector/pcap.py:24 | struct.unpack('<I') is the four bytes, least significant first |
| Text.Decimal | netflow_collector/daemon.py:35 | str(n) is a non-empty run of digits with no leading zero |
| Text.ParseDecimalOfDecimal | netflow_collector/daemon.py:35 | str(n) reads back as n |
| Text.DecimalInjective | netflow_collector/nf.py:147 | different numbers print differently |
| Text.Hex | netflow_collector/daemon.py:100-102 | a group prints as lower-case hex digits without a leading zero, one to four of them for a 16-bit group |
| Text.HexValueOfHex | netflow_collector/daemon.py:100-102 | the hex digits of n read back as n |
| Text.SplitJoin | netflow_collector/daemon.py:33-37 | splitting a join on its separator gives the parts back, when no part holds the separator |
| Text.JoinLastChar | netflow_collector/daemon.py:33-37 | a join whose last part is non-empty and free of the separator does not end with the separator |
| Text.JoinAvoids | netflow_collector/daemon.py:33-37 | a join holds a character other than the separator only if one of its parts does |
| Ip.FromInt | netflow_collector/daemon.py:100-102 | ip_address(n) is an IPv4 address exactly when n < 2^32, an IPv6 address when n < 2^128, and ValueError above |
| Ip.ToIntFromInt | netflow_collector/daemon.py:100-102 | the address of n converts back to n: no address bits are lost |
| Ip.V4TextReadsBack | netflow_collector/daemon.py:35 | str() of an IPv4 address splits on '.' into the four octets, each reading back as its value |
| Ip.AddressTextPlain | netflow_collector/daemon.py:33-37 | str() of any address contains no tab and no newline, so it is one column of a row |
| Ip.AddressText | netflow_collector/daemon.py:35 | str() of an address; V4TextReadsBack and AddressTextPlain state its form |
| Ip.V6Text | netflow_collector/daemon.py:35 | str() of an IPv6 address; CompressedGroupsHex states its groups are hex |
| Ip.CompressedGroupsHex | netflow_collector/daemon.py:35 | every group of an IPv6 text form is lower-case hex |
| Structuple.ItemValues | netflow_collector/util.py:22 | one format item unpacks to one value for an integer code and n values for 'nB' |
| Structuple.Values | netflow_collector/util.py:22 | a layout unpacks to as many values as its items produce together |
| Structuple.Unpack | netflow_collector/util.py:19-22 | unpack_from succeeds exactly when offset + size fits in the buffer, fails with struct.error otherwise, and gives Count values |
| Structuple.UnpackWindow | netflow_collector/util.py:21-22 | decoding reads only the size bytes at the offset: it equals decoding that window alone |
| Structuple.UnpackPack | netflow_collector/util.py:19-22 | unpacking the bytes packed from values gives those values back |
| Structuple.ValuesPack | netflow_collector/util.py:19-22 | item by item, each value is read back from where it was written |
| Structuple.Make | netflow_collector/util.py:18-19 | structuple succeeds exactly when every field name is an identifier that is no keyword and no name repeats; the error is namedtuple's ValueError |
| Structuple.KeywordRejected | netflow_collector/util.py:18 | a keyword such as class is refused as a field name, while a plain identifier is accepted |
| Structuple.Decode | netflow_collector/util.py:21-24 | a record decodes exactly when the whole layout fits, and carries the type's names and Count values |
| Structuple.HasGet | netflow_collector/util.py:31-32 | hasattr is True exactly when getattr reads a field value or the name is one of the type's own attributes (size, format, count, index, namedtuple's members), False exactly for any other name that is no field, and raises exactly the IndexError of getattr |
| Structuple.Get | netflow_collector/util.py:21-24 | getattr of a field; GetByPosition states that name i reads value i or raises IndexError |
| Structuple.Has | netflow_collector/util.py:31 | hasattr; HasGet ties it to getattr and the type's own attributes |
| Structuple.GetByPosition | netflow_collector/util.py:21-24 | name i reads value i when value i exists, and IndexError otherwise; the count is never checked |
| Structuple.Replacements | netflow_collector/util.py:29-32 | the field entries of the replacement dict: its keys are field names |
| Structuple.ReplacementsKeys | netflow_collector/util.py:29-33 | a field that no converter names gets no replacement |
| Structuple.ConvertersOnlyNamed | netflow_collector/util.py:26-34 | a field that no converter names keeps its raw unpacked value |
| Structuple.TypeAttributeConverterRaises | netflow_collector/util.py:30-33 | a converter keyed by size, count or another attribute of the type that is no field passes hasattr and makes _replace raise |
| Structuple.DecodeConverted | netflow_collector/util.py:26-34 | the converters path of a record; ConvertersOnlyNamed, TypeAttributeConverterRaises and DocExample state what it gives |
| Structuple.DocExampleUnpack | netflow_collector/util.py:13-16 | '!LH' over b'abcd12' unpacks to 0x61626364 and 12594 |
| Structuple.DocExampleMake | netflow_collector/util.py:14 | structuple accepts the names addr and port |
| Structuple.DocExampleReplacements | netflow_collector/util.py:14-16 | ip_address turns addr into 97.98.99.100 and leaves port alone |
| Structuple.DocExample | netflow_collector/util.py:13-16 | the documented example: Test(addr=IPv4Address('97.98.99.100'), port=12594) |
| FieldCatalog.UIntCode | netflow_collector/nf.py:11-21 | u_int(n) covers exactly n bytes; one value for n in {1, 2, 4, 8}, n values otherwise |
| FieldCatalog.ByteArrayCode | netflow_collector/nf.py:24-25 | byte_a(n) covers n bytes as n separate values |
| FieldCatalog.FieldTypeTable.constructor | netflow_collector/nf.py:139-144 | both dictionaries are built from the entry list in one pass |
| FieldCatalog.IdIndexSound | netflow_collector/nf.py:142-143 | every id in _lookup_id maps to a catalogue entry with that id |
| FieldCatalog.IdIndexComplete | netflow_collector/nf.py:142-143 | an id is in _lookup_id exactly when some entry has it |
| FieldCatalog.NameIndexSound | netflow_collector/nf.py:142-144 | every name in _lookup_name maps to a catalogue entry with that name |
| FieldCatalog.NameIndexComplete | netflow_collector/nf.py:142-144 | a name is in _lookup_name exactly when some entry has it |
| FieldCatalog.IdIndexAppendAbsent | netflow_collector/nf.py:142-143 | later entries without an id leave its _lookup_id entry unchanged |
| FieldCatalog.IdIndexAppendSole | netflow_collector/nf.py:142-143 | the only entry with its id among later entries wins _lookup_id |
| FieldCatalog.NameIndexAppendAbsent | netflow_collector/nf.py:142-144 | later entries without a name leave its _lookup_name entry unchanged |
| FieldCatalog.NameIndexAppendSole | netflow_collector/nf.py:142-144 | the only entry with its name among later entries wins _lookup_name |
| FieldCatalog.GetAnswersId | netflow_collector/nf.py:146-147 | get(id) answers for that id: a catalogue entry when one has the id, else (id, 0, u_int, 'FIELD_id') |
| FieldCatalog.FieldTypeTable.Get | netflow_collector/nf.py:146-147 | get itself; GetAnswersId states its answer for known and unknown ids |
| FieldCatalog.UnknownNamesDistinct | netflow_collector/nf.py:147 | different unknown ids get different FIELD_ names |
| FieldCatalog.GetByNameSound | netflow_collector/nf.py:149-150 | get_by_name is None exactly for unregistered names, else an entry with that name |
| FieldCatalog.FieldTypeTable.GetByName | netflow_collector/nf.py:149-150 | get_by_name itself; GetByNameSound and IcmpTypeByName state its answers |
| FieldCatalog.GetFromFirstRun | netflow_collector/nf.py:142-147 | get answers an entry of ids 1-24 that is alone with its id there |
| FieldCatalog.GetFromSecondRun | netflow_collector/nf.py:142-147 | get answers an entry of ids 27-50 that is alone with its id there |
| FieldCatalog.GetFromThirdRun | netflow_collector/nf.py:142-147 | get answers an entry of ids 55-64 that is alone with its id there |
| FieldCatalog.GetFromNsel | netflow_collector/nf.py:142-147 | get answers an NSEL entry alone with its id and absent from the NEL run |
| FieldCatalog.GetFromNel | netflow_collector/nf.py:142-147 | get answers a NEL entry alone with its id there |
| FieldCatalog.GetFlowFields | netflow_collector/nf.py:35-42 | get(4) is PROTOCOL (1 byte) and get(11) is L4_DST_PORT (2 bytes) |
| FieldCatalog.GetAddressFields | netflow_collector/nf.py:39-43 | get(8) is IPV4_SRC_ADDR and get(12) is IPV4_DST_ADDR, 4 bytes each |
| FieldCatalog.GetXlateFields | netflow_collector/nf.py:113-115 | get(225) is XLATE_SRC_ADDR_IPV4 (4 bytes) and get(227) is XLATE_SRC_PORT (2 bytes) |
| FieldCatalog.GetEventFields | netflow_collector/nf.py:121-131 | get(230) is NAT_EVENT (1 byte) and get(323) is EVENT_TIME_MSEC (8 bytes) |
| FieldCatalog.GetSrcMacField | netflow_collector/nf.py:78 | get(56) is SRC_MAC, 6 bytes under u_int |
| FieldCatalog.IcmpTypeByName | netflow_collector/nf.py:142-150 | ICMP_TYPE is registered at ids 32 and 176; get_by_name answers the later entry, 176 |
| FieldCatalog.IcmpTypeById | netflow_collector/nf.py:142-147 | both ICMP_TYPE entries stay reachable by id |
| Templates.FieldNames | netflow_collector/nf.py:163-165 | one name per template field: the catalogue name of its type, in template order |
| Templates.FieldCodes | netflow_collector/nf.py:163-166 | one format item per template field: its catalogue formatter applied to the declared length |
| Templates.Compile | netflow_collector/nf.py:160-168 | update_teplate's record type has the catalogue names over '!' and the field items; it fails, with namedtuple's ValueError, exactly when a catalogue name is no valid field name or two fields share a name |
| Templates.CompiledSize | netflow_collector/nf.py:163-168 | a compiled template's size is the sum of the declared field lengths |
| Templates.CompiledRecordSize | netflow_collector/nf.py:163-168 | a compiled template is as long as its declared field lengths together |
| Templates.CompiledShape | netflow_collector/nf.py:164-166 | a field covers its declared length; it gives one value for a u_int field of 1, 2, 4 or 8 bytes, else one value per byte |
| Templates.Put | netflow_collector/nf.py:169 | after storing, _dyn_templates[addr][template_id] holds the new record type |
| Templates.LookupPut | netflow_collector/nf.py:169-189 | storing changes match for that exact (exporter, id) pair and for no other |
| Templates.PutOtherExporters | netflow_collector/nf.py:169 | storing for one exporter leaves every other exporter's templates as they were |
| Templates.StaticCode | netflow_collector/nf.py:176-181 | a static field fails only on an unknown name |
| Templates.StaticCodes | netflow_collector/nf.py:172-181 | the static items exist exactly when every name resolves, one per name |
| Templates.CompileStatic | netflow_collector/nf.py:171-182 | add_static_template's record type has the given names over the static items, and fails on an unknown name |
| Templates.StaticColonFails | netflow_collector/nf.py:174-182 | any 'name:len' entry makes add_static_template fail |
| Templates.IcmpTypeTwiceRejected | netflow_collector/nf.py:160-168 | a template with both ICMP_TYPE ids is rejected as a duplicate field name |
| Templates.TemplateMatcher.constructor | netflow_collector/nf.py:154-158 | a new matcher has empty caches and the shared catalogue |
| Templates.TemplateMatcher.UpdateTemplate | netflow_collector/nf.py:160-169 | update_teplate stores the compiled type at (addr, template_id) only, and on failure changes nothing |
| Templates.TemplateMatcher.AddStaticTemplate | netflow_collector/nf.py:171-183 | the static template is stored under its size + 4, and the dynamic cache is untouched |
| Templates.TemplateMatcher.Match | netflow_collector/nf.py:186-189 | match answers the dynamic cache's entry, and None exactly when there is none; static templates are never consulted |
| Netflow.PacketHeaderNames | netflow_collector/nf.py:5 | the header's field names are distinct identifiers |
| Netflow.PacketHeaderLayout | netflow_collector/nf.py:5 | PacketHeader builds and is 20 bytes long |
| Netflow.FlowSetHeaderLayout | netflow_collector/nf.py:6 | FlowSetHeader builds and is 4 bytes long |
| Netflow.TplHeaderLayout | netflow_collector/nf.py:7 | FlowSetTplHeader builds and is 4 bytes long |
| Netflow.TplRecordLayout | netflow_collector/nf.py:8 | FlowSetTplRecord builds and is 4 bytes long |
| Netflow.PacketHeaderFields | netflow_collector/nf.py:5 | the header is two big-endian u16 and four big-endian u32, at bytes 0-2, 2-4, 4-8, 8-12, 12-16 and 16-20 |
| Netflow.PacketHeaderShort | netflow_collector/nf.py:204 | a datagram under 20 bytes fails with struct.error |
| Netflow.ReadPair | netflow_collector/nf.py:212 | a '!HH' read succeeds exactly when 4 bytes remain at the position |
| Netflow.ReadPairIsDecode | netflow_collector/nf.py:212-227 | a '!HH' read gives the two values of the record, or the same struct.error |
| Netflow.TemplateFields | netflow_collector/nf.py:225-229 | fieldCount pairs are read exactly when they fit, giving fieldCount fields |
| Netflow.TemplateFieldAt | netflow_collector/nf.py:226-229 | field pair i is the two big-endian u16 at 4 * i bytes after the template header |
| Netflow.TemplateSet | netflow_collector/nf.py:220-230 | a template flow set yields no record and ends Finished or Failed |
| Netflow.DataSet | netflow_collector/nf.py:238-244 | the data-record loop as a function; DataSetCount, DataSetPositions and DataSetStopsAtRaise state its records |
| Netflow.FlowSet | netflow_collector/nf.py:220-249 | the dispatch on the flow-set id; SkippedFlowSet and FlowSetStopsAtRaise state its outcomes |
| Netflow.FlowSetAt | netflow_collector/nf.py:211-214 | the next flow set starts at offset + length whatever the id; a length of 0 never finishes; an unreadable flow-set header fails with nothing yielded; a normally finished flow set moves strictly forward |
| Netflow.Walk | netflow_collector/nf.py:211-249 | the flow-set loop as a function; WalkIsolation and WalkStopsAtRaise state its outcomes |
| Netflow.ParseDatagram | netflow_collector/nf.py:201-249 | parse as a function; VersionMismatch, ParseIsolation and ParseStopsAtRaise state its outcomes |
| Netflow.ReadDataRecords | netflow_collector/nf.py:238-244 | the data-record loop yields what DataSet specifies |
| Netflow.ReadTemplateFields | netflow_collector/nf.py:225-229 | the field loop reads what TemplateFields specifies |
| Netflow.Parser.constructor | netflow_collector/nf.py:193-196 | a new parser has its version and an empty template cache |
| Netflow.Parser.AddTemplate | netflow_collector/nf.py:198-199 | add_template is add_static_template on the parser's matcher |
| Netflow.Parser.ReadTemplates | netflow_collector/nf.py:220-230 | the template loop leaves the cache as TemplateSet specifies and touches no static template |
| Netflow.Parser.ReadFlowSet | netflow_collector/nf.py:220-249 | one flow set, dispatched on its id, as FlowSet specifies |
| Netflow.Parser.ReadNextFlowSet | netflow_collector/nf.py:211-249 | one pass of the flow-set loop, as FlowSetAt specifies |
| Netflow.Parser.ReadFlowSets | netflow_collector/nf.py:211-249 | the flow-set loop yields and caches what Walk specifies |
| Netflow.Parser.Parse | netflow_collector/nf.py:201-249 | parse yields, caches and ends as ParseDatagram specifies; static templates are untouched |
| NetflowProperties.ShortDatagram | netflow_collector/nf.py:204 | a datagram under 20 bytes fails at once with nothing yielded and the cache unchanged |
| NetflowProperties.VersionMismatch | netflow_collector/nf.py:204-209 | another version yields nothing and leaves the cache as it was |
| NetflowProperties.VersionMatch | netflow_collector/nf.py:204-211 | the configured version walks the flow sets from byte 20 |
| NetflowProperties.SkippedFlowSet | netflow_collector/nf.py:232-249 | flow sets with id 1, ids 2-255 and unmatched data ids yield nothing and the walk goes on at offset + length |
| NetflowProperties.ZeroLengthFlowSet | netflow_collector/nf.py:211-214 | a flow set of length 0 never ends the loop and yields nothing |
| NetflowProperties.RecordAt | netflow_collector/nf.py:240-244 | record k of a run sits at pos + k * size and ends by the flow-set end |
| NetflowProperties.DataSetPositions | netflow_collector/nf.py:238-244 | the records of a data flow set are the ones decoded at pos, pos + size, pos + 2 * size, ... |
| NetflowProperties.DataSetRecordAt | netflow_collector/nf.py:238-244 | the k-th record yielded is the one decoded at pos + k * size, which fits before the end |
| NetflowProperties.DataSetCount | netflow_collector/nf.py:240-244 | a data flow set yields floor((end - pos) / size) records and skips the trailing bytes |
| NetflowProperties.TemplateSetIsolation | netflow_collector/nf.py:220-230 | a template flow set changes no other exporter's templates |
| NetflowProperties.FlowSetAtIsolation | netflow_collector/nf.py:211-249 | one flow set changes no other exporter's templates |
| NetflowProperties.WalkIsolation | netflow_collector/nf.py:211-249 | the flow-set walk changes no other exporter's templates |
| NetflowProperties.ParseIsolation | netflow_collector/nf.py:201-249 | a datagram from one exporter leaves what match answers for every other exporter unchanged |
| NetflowProperties.DataSetStopsAtRaise | netflow_collector/nf.py:240-244 | the consumer's exception is on the last record a data flow set yields, exactly when it ends Closed |
| NetflowProperties.FlowSetStopsAtRaise | netflow_collector/nf.py:232-244 | the same for one flow set |
| NetflowProperties.FlowSetAtStopsAtRaise | netflow_collector/nf.py:211-249 | the same for one pass of the flow-set loop |
| NetflowProperties.WalkStopsAtRaise | netflow_collector/nf.py:211-249 | the same for the whole flow-set walk |
| NetflowProperties.ParseStopsAtRaise | netflow_collector/nf.py:201-249 | the consumer's exception closes parse: nothing is yielded after the record it raised on |
| NetflowExample.SampleTemplateFields | netflow_collector/nf.py:225-229 | the sample template's two field pairs read as (4, 1) and (11, 2) |
| NetflowExample.SampleTemplateCompiles | netflow_collector/nf.py:160-168 | the sample template compiles to '!BH' named PROTOCOL and L4_DST_PORT |
| NetflowExample.SampleTemplateSet | netflow_collector/nf.py:220-230 | the sample's template flow set stores template 256 for the exporter and nothing else |
| NetflowExample.FlowRecord | netflow_collector/nf.py:241 | a '!BH' record is one protocol byte and a big-endian u16 port |
| NetflowExample.SampleDataSet | netflow_collector/nf.py:238-244 | the sample's data flow set yields (6, 80) and (17, 53) |
| NetflowExample.SampleHeader | netflow_collector/nf.py:204 | the sample's header decodes to version 9, count 2 |
| NetflowExample.SampleWalkData | netflow_collector/nf.py:235-244 | with template 256 known, the walk from byte 36 yields the two records |
| NetflowExample.SampleTemplateFlowSet | netflow_collector/nf.py:211-230 | the flow set at byte 20 stores template 256 and the next one starts at byte 36 |
| NetflowExample.SampleWalk | netflow_collector/nf.py:211-249 | the walk from byte 20 stores template 256 and then decodes the data with it |
| NetflowExample.SampleParse | netflow_collector/nf.py:201-249 | parse of the sample datagram: its header, the two records in order, template 256 cached |
| NetflowExample.MacShiftsLaterNames | netflow_collector/nf.py:11-25 | with a 6-byte SRC_MAC first, PROTOCOL reads the MAC's second byte, not the protocol byte |
| NelStore.Handle | netflow_collector/daemon.py:97-99 | a record without IPV4_SRC_ADDR, or with it but without IPV4_DST_ADDR, is dropped |
| NelStore.HandleKeeps | netflow_collector/daemon.py:97-106 | a row is appended exactly for records with both addresses and NAT_EVENT 1; its columns are the addresses, the event time in seconds, the ports and the protocol |
| NelStore.MissingNatEventRaises | netflow_collector/daemon.py:98-99 | both addresses present but no NAT_EVENT raises AttributeError |
| NelStore.OtherEventsDropped | netflow_collector/daemon.py:98-99 | a NAT_EVENT other than 1 drops the record without error |
| NelStore.Retain | netflow_collector/daemon.py:93-95 | handling a run of records fails exactly when one of them raises, and keeps at most one row per record |
| NelStore.RetainNext | netflow_collector/daemon.py:93-95 | handling one more record appends its row, if any, after the rows before it |
| NelStore.RetainRows | netflow_collector/daemon.py:93-106 | every kept row is the row of some record the handler accepts |
| NelStore.NatRow | netflow_collector/daemon.py:100-105 | the seven-column row of a kept record; HandleKeeps states its columns |
| NelStore.Capacity | netflow_collector/daemon.py:108 | a batch holds buffer_size rows, or 1 for a buffer_size of 0 |
| NelStore.Append | netflow_collector/daemon.py:104-110 | one append to the buffer; AppendBounded, AppendConserves and AppendKeepsRequests state its effect |
| NelStore.AppendAll | netflow_collector/daemon.py:104-110 | appends in order; AppendAllBounded and AppendAllConserves state their effect |
| NelStore.AppendBounded | netflow_collector/daemon.py:104-110 | appending keeps the buffer below buffer_size and submits only full batches |
| NelStore.AppendConserves | netflow_collector/daemon.py:104-110 | appending loses, duplicates and reorders no row across batches and buffer |
| NelStore.AppendKeepsRequests | netflow_collector/daemon.py:108-110 | appending never changes a batch already submitted, and submits at most one |
| NelStore.AppendAllBounded | netflow_collector/daemon.py:104-110 | the bound holds after any number of rows |
| NelStore.AppendAllConserves | netflow_collector/daemon.py:104-110 | after any number of rows, the batches and then the buffer hold every row in order |
| NelStore.AppendAllKeepsRequests | netflow_collector/daemon.py:108-110 | submitted batches are never taken back |
| NelStore.AppendAllBelow | netflow_collector/daemon.py:108 | below the threshold rows only join the buffer; there is no time-based flush |
| NelStore.FlushAtThreshold | netflow_collector/daemon.py:108-110 | buffer_size rows into an empty buffer submit exactly one batch of those rows |
| NelStore.HandledLast | netflow_collector/daemon.py:93-95 | when only the last record can raise, the handler loop gets through every record |
| NelStore.Received | netflow_collector/daemon.py:91-95 | the sink after a datagram whose parse is given; ReceiveConserves states it |
| NelStore.Receive | netflow_collector/daemon.py:91-110 | datagram_received as a function; ReceiveBounded, ReceiveConserves and ReceiveOtherVersion state its effect |
| NelStore.ReceiveBounded | netflow_collector/daemon.py:91-110 | a datagram keeps the buffer below buffer_size and every submitted batch full |
| NelStore.ReceiveConserves | netflow_collector/daemon.py:91-110 | a datagram adds exactly its kept rows, in wire order, after all earlier rows |
| NelStore.ReceiveOtherVersion | netflow_collector/daemon.py:91-95 | a datagram of another version only counts the datagram |
| NelStore.ReceiveRaisesLast | netflow_collector/daemon.py:93-95 | the handler can raise only on the last record the parse yields |
| NelStore.PgNelStoreProtocol.constructor | netflow_collector/daemon.py:83-89 | a version 9 parser with an empty cache, an empty buffer and zero counters |
| NelStore.PgNelStoreProtocol.HandleFlowSet | netflow_collector/daemon.py:97-110 | _handle_flow_set appends the kept row and submits a full buffer, or changes nothing |
| NelStore.PgNelStoreProtocol.HandleRecords | netflow_collector/daemon.py:93-95 | the handler loop counts each record, stops after the first one that raises, and appends the kept rows |
| NelStore.PgNelStoreProtocol.DatagramReceived | netflow_collector/daemon.py:91-95 | datagram_received leaves the sink as Receive specifies |
| NelStore.PgNelStoreProtocol.ReportStats | netflow_collector/daemon.py:112-116 | report_stats reports both counts and the buffer length, resets both counters and leaves the buffer |
| NelStore.MultiProtocol.constructor | netflow_collector/daemon.py:134-135 | the sinks are kept in the given order |
| NelStore.MultiProtocol.DatagramReceived | netflow_collector/daemon.py:141-143 | each sink in order takes the same datagram; the first that raises or diverges keeps it from every later sink |
| NelStore.RowColumns | netflow_collector/daemon.py:35 | a row has seven columns |
| NelStore.Lines | netflow_collector/daemon.py:33-36 | one line per row, in order |
| NelStore.RowText | netflow_collector/daemon.py:34-36 | a row's tab-joined text; RowTextColumns states it splits back into the columns |
| NelStore.BatchText | netflow_collector/daemon.py:33-37 | a batch's newline-joined text; BatchTextRows states it splits back into the rows |
| NelStore.ColumnsPlain | netflow_collector/daemon.py:33-37 | no column contains a tab or a newline |
| NelStore.RowTextColumns | netflow_collector/daemon.py:34-36 | a row's text splits on tabs back into its seven columns, with no newline and never empty |
| NelStore.BatchTextRows | netflow_collector/daemon.py:33-37 | a batch's text splits on newlines into its rows, each splitting into its columns, with no trailing newline |
| Pcap.ReadAt | netflow_collector/pcap.py:19 | read(n) gives the next n bytes, fewer at the end of the file |
| Pcap.CheckHeader | netflow_collector/pcap.py:46-61 | pcap_check on the 24 header bytes; OpenOutcome and OpenFields state its outcomes |
| Pcap.Open | netflow_collector/pcap.py:18-61 | get_parser as a function; OpenOutcome states its four outcomes |
| Pcap.MagicOrder | netflow_collector/pcap.py:51-58 | 0xA1B2C3D4 selects '<', 0x4D3C2B1A selects '>', anything else neither |
| Pcap.OpenOutcome | netflow_collector/pcap.py:18-61 | NoDataInInputBuffer exactly under 4 bytes; UnsupportFileFormat exactly for an unknown magic; struct.error exactly for a known magic with under 24 bytes; success otherwise |
| Pcap.OpenWhole | netflow_collector/pcap.py:40-61 | with 24 bytes available, the header is the 24 bytes unpacked in the order the magic selects |
| Pcap.OpenFields | netflow_collector/pcap.py:51-61 | an accepted header's order matches its magic, and each field is read in that order at its offset |
| Pcap.BigEndianCaptureRejected | netflow_collector/pcap.py:24-28 | a file starting A1 B2 C3 D4, a real big-endian capture, is rejected |
| Pcap.SwappedMagicBytes | netflow_collector/pcap.py:51-56 | the '>' order is chosen only for files starting 1A 2B 3C 4D |
| Pcap.HeaderFieldsOfBytes | netflow_collector/pcap.py:60-61 | the header fields unpack to the values written |
| Pcap.OpenHeaderBytes | netflow_collector/pcap.py:18-61 | get_parser reads back any header written with a known magic |
| Pcap.PacketAt | netflow_collector/pcap.py:63-83 | read_pcap_pac consumes bytes from the front, and a yielded record uses 16 + packet_len of them |
| Pcap.TruncatedRecord | netflow_collector/pcap.py:70-82 | a record header cut short raises struct.error; a packet cut short ends the stream with nothing yielded |
| Pcap.EmptyPacketEnds | netflow_collector/pcap.py:85-91 | a record of captured length 0 ends the stream as the end of the file does |
| Pcap.PacketsShape | netflow_collector/pcap.py:85-91 | every item yielded carries the link type and a non-empty packet, at most one per 17 bytes |
| Pcap.PacketAtRecord | netflow_collector/pcap.py:63-83 | a written record reads back as its seconds * 1000000 + useconds and its packet, leaving what follows |
| Pcap.PacketsAtEnd | netflow_collector/pcap.py:72-74 | at the end of the file read_packet returns with nothing yielded |
| Pcap.Packets | netflow_collector/pcap.py:85-91 | read_packet as a function; PacketsShape and PacketsRoundTrip state what it yields |
| Pcap.RecordThenPackets | netflow_collector/pcap.py:85-89 | a written record is yielded first, and then the records after it |
| Pcap.PacketsRoundTrip | netflow_collector/pcap.py:85-91 | read_packet yields exactly the records written, in order, and then returns |
| Pcap.CaptureRoundTrip | netflow_collector/pcap.py:18-91 | a written capture opens to its header and yields its records in order |
| Pcap.InFile.Read | netflow_collector/pcap.py:80 | read consumes what it returns and moves the cursor by that much |
| Pcap.PcapFile.constructor | netflow_collector/pcap.py:32-35 | a new PcapFile has byte order '@' and no link type |
| Pcap.PcapFile.PcapCheck | netflow_collector/pcap.py:40-61 | pcap_check reads up to 24 - len(head) more bytes and sets the order and fields as CheckHeader specifies; on an error the link type and the version, timezone, timestamp and snap length fields stay unchanged, and the byte order is set only once the magic is recognised |
| Pcap.PcapFile.ReadPcapPac | netflow_collector/pcap.py:63-83 | read_pcap_pac returns and consumes what PacketAt specifies |
| Pcap.PcapFile.ReadPacket | netflow_collector/pcap.py:85-91 | read_packet yields what Packets specifies for the unread bytes |
| Pcap.GetParser | netflow_collector/pcap.py:18-28 | get_parser succeeds exactly when Open does, with that header and 24 bytes consumed, and otherwise raises Open's error |

## Left out

- The thread pool `StorePgThreadPool` (threads, the bounded queue, psycopg2 `copy_from` and commit, `waitCompletion`, `getQueueSize`) is concurrency and database I/O. `addRequest` is modelled as appending the batch to `requests`. The batch text of `Worker.run` is modelled.
- `MirrorProtocol`, the asyncio endpoints, the click commands, the `StatReporter` thread and its `time.sleep`, and all logging. These are I/O, UI and timing. `report_stats` returns what it would log.
- `Parser._lastSeqId` is set in the constructor and only read in commented-out code. It has no observable effect.
- The `dsn` and `workers` arguments of `PgNelStoreProtocol.__init__` only configure the pool. `MultiProtocol.__init__`'s starting of the reporter thread is left out for the same reason.
- `int(EVENT_TIME_MSEC/1000)` is float division in Python. The model uses integer division, which agrees for values below 2^53.
- `ipaddress` is modelled only for `ip_address(int)`, `int()` and `str()`. An address field gets `u_int` of the length its template declares (nf.py:163-166), so a template that gives field 8, 12 or 225 a length of 8 makes it a u64 (`'Q'`, nf.py:18-19), and `ip_address` then builds an IPv6 address for any value of 2^32 or more (daemon.py:100-102). `Ip.FromInt` models that choice. The model renders such an address in the compressed form of RFC 5952 without an embedded IPv4 suffix; Python prints an IPv4-mapped value (`::ffff:a.b.c.d`) with a dotted suffix, which the model does not reproduce.
- Laziness of `parse` and `read_packet`. Both are modelled eagerly, in yield order, with the end status described above. How far a never-ending loop gets is represented by `Diverges`, not by an infinite stream.
- NelStore.MultiProtocol.DatagramReceived: requires that no two sinks share an object (`Separate`). The source does not check this, but two entries for one sink object would receive the datagram twice.
- Pcap.PcapFile.constructor: `PcapFile.__init__` runs `pcap_check` itself. The model splits it into the constructor plus `PcapCheck`, which `GetParser` calls at once, so `get_parser`'s behaviour is the same.
- The capture file is the bytes not yet read (`InFile.Unread()`). Seeking, a file that grows while it is read, and read errors are not modelled.
- The `structuple` record type's `format` attribute, `typename` and the namedtuple's other methods are not used by the core and are not modelled.
- Structuple.Make: namedtuple accepts any Unicode identifier that is no keyword; the model accepts only ASCII letters, digits and `_`. Every name the core builds is ASCII.
- Structuple.Get: getattr of one of the type's own attributes (`size`, `format`, `count`, `index`, namedtuple's members) gives that attribute, and a field named `size` or `format` is shadowed by structuple's class attribute; the model answers `NoSuchAttribute` for the first and the field value for the second. The core reads only upper-case catalogue names, which are neither.
- Structuple.HasGet: for a field named `size` or `format`, hasattr is True through the class attribute even past the last value; the model treats such a field like any other.
- Structuple.Replacements: a converter keyed by one of the type's own attributes is not run on that attribute's value. The model reports `_replace`'s ValueError for it; a converter that would itself fail on that value raises its own exception first in Python.
- setup.py is packaging only and is not part of this model.
