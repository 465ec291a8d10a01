/**
 * A worked datagram: a NetFlow v9 packet carrying one template flow set (template 256: PROTOCOL, 1 byte;
 * L4_DST_PORT, 2 bytes) followed by a data flow set with two records under it. Also the effect of a field
 * whose length has no single-integer format: the names after it read the wrong values.
 */
module NetflowExample {
  import opened Wrappers
  import opened Bytes
  import opened Structuple
  import opened FieldCatalog
  import opened Templates
  import opened Netflow

  /**
   * The sample datagram, byte by byte: a 20-byte header (version 9, count 2), a 16-byte template flow set
   * announcing template 256 with fields (4, 1) and (11, 2), and a 10-byte data flow set holding the records
   * 06 0050 and 11 0035.
   */
  ghost predicate IsSample(buf: seq<byte>)
  {
    && |buf| == 46
    && buf[0] == 0 && buf[1] == 9 && buf[2] == 0 && buf[3] == 2 && buf[4] == 0 && buf[5] == 0 && buf[6] == 0 && buf[7] == 0 && buf[8] == 0 && buf[9] == 0
    && buf[10] == 0 && buf[11] == 0 && buf[12] == 0 && buf[13] == 0 && buf[14] == 0 && buf[15] == 0 && buf[16] == 0 && buf[17] == 0 && buf[18] == 0 && buf[19] == 0
    && buf[20] == 0 && buf[21] == 0 && buf[22] == 0 && buf[23] == 16 && buf[24] == 1 && buf[25] == 0 && buf[26] == 0 && buf[27] == 2
    && buf[28] == 0 && buf[29] == 4 && buf[30] == 0 && buf[31] == 1 && buf[32] == 0 && buf[33] == 11 && buf[34] == 0 && buf[35] == 2
    && buf[36] == 1 && buf[37] == 0 && buf[38] == 0 && buf[39] == 10 && buf[40] == 6 && buf[41] == 0 && buf[42] == 80 && buf[43] == 17 && buf[44] == 0 && buf[45] == 53
  }

  const FlowFields := [TemplateField(4, 1), TemplateField(11, 2)]

  /** The record type template 256 compiles to: '!BH' named PROTOCOL, L4_DST_PORT. */
  const FlowTemplate := Struct(["PROTOCOL", "L4_DST_PORT"], Layout(Big, [Uint(1), Uint(2)]))

  /** The two field pairs of template 256 sit at bytes 28 to 36. */
  lemma SampleTemplateFields(buf: seq<byte>)
    requires IsSample(buf)
    ensures TemplateFields(buf, 28, 2) == Ok(FlowFields)
  {
    var r := TemplateFields(buf, 28, 2);
    TemplateFieldAt(buf, 28, 2, 0);
    TemplateFieldAt(buf, 28, 2, 1);
    BigEndian2(buf[28..30]);
    BigEndian2(buf[30..32]);
    BigEndian2(buf[32..34]);
    BigEndian2(buf[34..36]);
    assert r.value == [r.value[0], r.value[1]];
  }

  /** The catalogue turns the two pairs into FlowTemplate. */
  lemma SampleTemplateCompiles(table: FieldTypeTable)
    requires table.lookupId == IdIndex(Table)
    ensures Compile(table, FlowFields) == Ok(FlowTemplate)
  {
    GetFlowFields(table);
    var names := FieldNames(table, FlowFields);
    assert names == FlowTemplate.names;
    assert FieldCodes(table, FlowFields) == FlowTemplate.layout.codes;
    assert ValidFieldName(names[0]) && ValidFieldName(names[1]) && names[0][0] != names[1][0];
  }

  /** The template flow set at bytes 24 to 36 stores template 256 for the exporter and nothing else. */
  lemma SampleTemplateSet(table: FieldTypeTable, buf: seq<byte>, addr: Exporter, cache: Cache)
    requires table.lookupId == IdIndex(Table) && IsSample(buf)
    ensures TemplateSet(table, buf, addr, 24, 36, cache) == Outcome([], Put(cache, addr, 256, FlowTemplate), Finished)
  {
    BigEndian2(buf[24..26]);
    BigEndian2(buf[26..28]);
    SampleTemplateFields(buf);
    SampleTemplateCompiles(table);
    TemplateSetNext(table, buf, addr, 24, 36, cache, 256, 2, FlowFields, FlowTemplate, 36, Put(cache, addr, 256, FlowTemplate));
  }

  /** The record under FlowTemplate at pos: one byte of protocol, then a big-endian u16 port. */
  lemma FlowRecord(buf: seq<byte>, pos: nat)
    requires pos + 3 <= |buf|
    ensures Decode(FlowTemplate, buf, pos)
         == Ok(Record(FlowTemplate.names, [buf[pos] as nat, buf[pos + 1] as nat * 256 + buf[pos + 2]]))
  {
    var cs := FlowTemplate.layout.codes;
    assert cs[1..][1..] == [];
    BigEndian2(buf[pos + 1..pos + 3]);
    assert BigEndian(buf[pos..pos + 1]) == buf[pos] by {
      assert buf[pos..pos + 1][..0] == [];
    }
    var w := buf[pos..pos + 3];
    assert w[..1] == buf[pos..pos + 1] && w[1..][..2] == buf[pos + 1..pos + 3];
    assert Values(Big, cs, w) == [buf[pos] as nat, buf[pos + 1] as nat * 256 + buf[pos + 2]];
  }

  /** The data flow set at bytes 40 to 46 yields (6, 80) and (17, 53), then ends. */
  lemma SampleDataSet(buf: seq<byte>, closeAfter: Record<nat> -> bool)
    requires IsSample(buf) && forall rec :: !closeAfter(rec)
    ensures DataSet(FlowTemplate, buf, 40, 46, closeAfter)
         == Run([Record(FlowTemplate.names, [6, 80]), Record(FlowTemplate.names, [17, 53])], Finished)
  {
    FlowRecord(buf, 40);
    FlowRecord(buf, 43);
    var last := DataSet(FlowTemplate, buf, 43, 46, closeAfter);
    assert last == Run([Record(FlowTemplate.names, [17, 53])], Finished) by {
      assert [Record(FlowTemplate.names, [17, 53])] + [] == [Record(FlowTemplate.names, [17, 53])];
    }
  }

  /** The header of the sample: version 9, count 2, the rest zero. */
  lemma SampleHeader(buf: seq<byte>)
    requires IsSample(buf)
    ensures Decode(PacketHeader, buf, 0) == Ok(Record(PacketHeader.names, [9, 2, 0, 0, 0, 0]))
  {
    PacketHeaderFields(buf);
    BigEndian2(buf[0..2]);
    BigEndian2(buf[2..4]);
    BigEndian4(buf[4..8]);
    BigEndian4(buf[8..12]);
    BigEndian4(buf[12..16]);
    BigEndian4(buf[16..20]);
  }

  /** From byte 36, with template 256 known: the data flow set's two records, then the end of the datagram. */
  lemma SampleWalkData(table: FieldTypeTable, buf: seq<byte>, addr: Exporter, cache: Cache, closeAfter: Record<nat> -> bool)
    requires IsSample(buf) && Lookup(cache, addr, 256) == Some(FlowTemplate)
    requires forall rec :: !closeAfter(rec)
    ensures Walk(table, buf, addr, 36, cache, closeAfter)
         == Outcome([Record(FlowTemplate.names, [6, 80]), Record(FlowTemplate.names, [17, 53])], cache, Finished)
  {
    BigEndian2(buf[36..38]);
    BigEndian2(buf[38..40]);
    SampleDataSet(buf, closeAfter);
    var o := FlowSet(table, buf, addr, 256, 40, 46, cache, closeAfter);
    FlowSetAtHeader(table, buf, addr, 36, cache, closeAfter, 256, 10, o);
    assert o.records + [] == o.records;
  }

  /** The flow set at byte 20 is the template flow set; the next one starts at byte 36. */
  lemma SampleTemplateFlowSet(table: FieldTypeTable, buf: seq<byte>, addr: Exporter, cache: Cache,
                              closeAfter: Record<nat> -> bool)
    requires table.lookupId == IdIndex(Table) && IsSample(buf)
    ensures FlowSetAt(table, buf, addr, 20, cache, closeAfter) == Step(Outcome([], Put(cache, addr, 256, FlowTemplate), Finished), 36)
  {
    BigEndian2(buf[20..22]);
    BigEndian2(buf[22..24]);
    SampleTemplateSet(table, buf, addr, cache);
    var o := FlowSet(table, buf, addr, 0, 24, 36, cache, closeAfter);
    FlowSetAtHeader(table, buf, addr, 20, cache, closeAfter, 0, 16, o);
  }

  /** From byte 20: the template flow set stores template 256, then the data flow set is read with it. */
  lemma SampleWalk(table: FieldTypeTable, buf: seq<byte>, addr: Exporter, cache: Cache, closeAfter: Record<nat> -> bool)
    requires table.lookupId == IdIndex(Table) && IsSample(buf)
    requires forall rec :: !closeAfter(rec)
    ensures Walk(table, buf, addr, 20, cache, closeAfter)
         == Outcome([Record(FlowTemplate.names, [6, 80]), Record(FlowTemplate.names, [17, 53])],
                    Put(cache, addr, 256, FlowTemplate), Finished)
  {
    var next := Put(cache, addr, 256, FlowTemplate);
    SampleTemplateFlowSet(table, buf, addr, cache, closeAfter);
    SampleWalkData(table, buf, addr, next, closeAfter);
    var w := Walk(table, buf, addr, 36, next, closeAfter);
    assert [] + w.records == w.records;
  }

  /**
   * The whole datagram: the header, then the two data records decoded with the template the same datagram
   * announced; the cache ends up holding template 256 for this exporter.
   */
  lemma SampleParse(table: FieldTypeTable, buf: seq<byte>, addr: Exporter, cache: Cache, closeAfter: Record<nat> -> bool)
    requires table.lookupId == IdIndex(Table) && IsSample(buf)
    requires forall rec :: !closeAfter(rec)
    ensures ParseDatagram(9, table, buf, addr, cache, closeAfter)
         == ParseResult(Some(Record(PacketHeader.names, [9, 2, 0, 0, 0, 0])),
                        [Record(FlowTemplate.names, [6, 80]), Record(FlowTemplate.names, [17, 53])],
                        Put(cache, addr, 256, FlowTemplate), Finished)
  {
    SampleHeader(buf);
    SampleWalk(table, buf, addr, cache, closeAfter);
  }

  /** A template with a 6-byte SRC_MAC before PROTOCOL: '!6BB'. */
  const MacFields := [TemplateField(56, 6), TemplateField(4, 1)]

  /**
   * SRC_MAC unpacks to six values, yet names bind to values by position: PROTOCOL reads the second MAC byte,
   * not the protocol byte six bytes in.
   */
  lemma MacShiftsLaterNames(table: FieldTypeTable, buf: seq<byte>, pos: nat)
    requires table.lookupId == IdIndex(Table)
    requires pos + 7 <= |buf|
    ensures Compile(table, MacFields).Ok?
    ensures var st := Compile(table, MacFields).value;
      && StructSize(st) == 7
      && Decode(st, buf, pos).Ok?
      && Get(Decode(st, buf, pos).value, "PROTOCOL") == Ok(buf[pos + 1] as nat)
  {
    GetSrcMacField(table);
    GetFlowFields(table);
    var names := FieldNames(table, MacFields);
    var codes := FieldCodes(table, MacFields);
    assert names == ["SRC_MAC", "PROTOCOL"];
    assert codes == [ByteRun(6), Uint(1)];
    assert ValidFieldName(names[0]) && ValidFieldName(names[1]) && names[0][0] != names[1][0];
    var st := Struct(names, Layout(Big, codes));
    assert Compile(table, MacFields) == Ok(st);
    assert codes[1..][1..] == [];
    assert Size(codes[1..]) == 1;
    assert StructSize(st) == 7;
    var rec := Decode(st, buf, pos).value;
    assert rec.values[1] == buf[pos + 1];
    assert IndexOf(rec.names, "PROTOCOL") == 1;
  }
}
