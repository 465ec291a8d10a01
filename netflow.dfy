/**
 * Parser of nf.py: decodes one NetFlow v9 export datagram (RFC 3954) — the 20-byte packet header, then flow
 * sets walked by their declared length: template flow sets (id 0) register templates in the exporter's cache,
 * data flow sets (id > 255) with a known template yield back-to-back records, everything else is skipped.
 *
 * The generator is modelled eagerly: Parse returns the records it would yield, in order, the template cache
 * after the walk and how the walk ended. The consumer of the generator is the parameter closeAfter: when it
 * holds for a yielded record the consumer raised, which closes the generator (status Closed). The two loops of
 * the source that never end — a flow set of length 0 and a template of size 0 — end in status Diverges, with
 * the records yielded before the loop started repeating.
 */
module Netflow {
  import opened Wrappers
  import opened Bytes
  import opened Structuple
  import opened FieldCatalog
  import opened Templates

  /** PacketHeader ('!HHIIII'): version, count, sysUpTime, unixSecs, seqNumber, srcId. */
  const PacketHeader := Struct(["version", "count", "sysUpTime", "unixSecs", "seqNumber", "srcId"],
                               Layout(Big, [Uint(2), Uint(2), Uint(4), Uint(4), Uint(4), Uint(4)]))
  /** FlowSetHeader ('!HH'): flowSetId, length. */
  const FlowSetHeader := Struct(["flowSetId", "length"], Layout(Big, [Uint(2), Uint(2)]))
  /** FlowSetTplHeader ('!HH'): templateId, fieldCount. */
  const FlowSetTplHeader := Struct(["templateId", "fieldCount"], Layout(Big, [Uint(2), Uint(2)]))
  /** FlowSetTplRecord ('!HH'): fieldType, fieldLength. */
  const FlowSetTplRecord := Struct(["fieldType", "fieldLength"], Layout(Big, [Uint(2), Uint(2)]))

  /** The names of PacketHeader are identifiers and pairwise distinct. */
  lemma PacketHeaderNames()
    ensures forall i :: 0 <= i < |PacketHeader.names| ==> ValidFieldName(PacketHeader.names[i])
    ensures DistinctNames(PacketHeader.names)
  {
    var ns := PacketHeader.names;
    assert !IsKeyword(ns[0]) && !IsKeyword(ns[1]) && !IsKeyword(ns[2]);
    assert !IsKeyword(ns[3]) && !IsKeyword(ns[4]) && !IsKeyword(ns[5]);
    assert ValidFieldName(ns[0]) && ValidFieldName(ns[1]) && ValidFieldName(ns[2]);
    assert ValidFieldName(ns[3]) && ValidFieldName(ns[4]) && ValidFieldName(ns[5]);
    assert ns[0][0] == 'v' && ns[1][0] == 'c' && ns[3][0] == 'u';
    assert ns[2][..2] == "sy" && ns[4][..2] == "se" && ns[5][..2] == "sr";
  }

  /** PacketHeader is accepted by structuple and is the 20-byte header of section 5.1 of RFC 3954. */
  lemma PacketHeaderLayout()
    ensures Make(PacketHeader.names, PacketHeader.layout) == Ok(PacketHeader) && StructSize(PacketHeader) == 20
  {
    PacketHeaderNames();
  }

  /** FlowSetHeader is accepted by structuple and is 4 bytes long. */
  lemma FlowSetHeaderLayout()
    ensures Make(FlowSetHeader.names, FlowSetHeader.layout) == Ok(FlowSetHeader) && StructSize(FlowSetHeader) == 4
  {
    var ns := FlowSetHeader.names;
    assert ValidFieldName(ns[0]) && ValidFieldName(ns[1]) && ns[0][0] != ns[1][0];
  }

  /** FlowSetTplHeader is accepted by structuple and is 4 bytes long. */
  lemma TplHeaderLayout()
    ensures Make(FlowSetTplHeader.names, FlowSetTplHeader.layout) == Ok(FlowSetTplHeader) && StructSize(FlowSetTplHeader) == 4
  {
    var ns := FlowSetTplHeader.names;
    assert ValidFieldName(ns[0]) && ValidFieldName(ns[1]) && ns[0][0] != ns[1][0];
  }

  /** FlowSetTplRecord is accepted by structuple and is 4 bytes long. */
  lemma TplRecordLayout()
    ensures Make(FlowSetTplRecord.names, FlowSetTplRecord.layout) == Ok(FlowSetTplRecord) && StructSize(FlowSetTplRecord) == 4
  {
    var ns := FlowSetTplRecord.names;
    assert ValidFieldName(ns[0]) && ValidFieldName(ns[1]) && ns[0][5] != ns[1][5];
  }

  /** The packet header is the first 20 bytes read as two big-endian u16 and four big-endian u32. */
  lemma PacketHeaderFields(buf: seq<byte>)
    requires |buf| >= 20
    ensures Decode(PacketHeader, buf, 0) == Ok(Record(PacketHeader.names,
      [BigEndian(buf[0..2]), BigEndian(buf[2..4]), BigEndian(buf[4..8]),
       BigEndian(buf[8..12]), BigEndian(buf[12..16]), BigEndian(buf[16..20])]))
  {
    var cs := PacketHeader.layout.codes;
    PacketHeaderLayout();
    var vs := [BigEndian(buf[0..2]), BigEndian(buf[2..4]), BigEndian(buf[4..8]),
               BigEndian(buf[8..12]), BigEndian(buf[12..16]), BigEndian(buf[16..20])];
    assert cs[1..][1..][1..][1..][1..] == [Uint(4)];
    var w0 := buf[0..20];
    var w1 := w0[2..];
    var w2 := w1[2..];
    var w3 := w2[4..];
    var w4 := w3[4..];
    var w5 := w4[4..];
    assert w0[..2] == buf[0..2] && w1[..2] == buf[2..4] && w2[..4] == buf[4..8];
    assert w3[..4] == buf[8..12] && w4[..4] == buf[12..16] && w5[..4] == buf[16..20];
    assert Values(Big, cs[1..][1..][1..][1..][1..], w5) == vs[5..];
    assert Values(Big, cs[1..][1..][1..][1..], w4) == vs[4..];
    assert Values(Big, cs[1..][1..][1..], w3) == vs[3..];
    assert Values(Big, cs[1..][1..], w2) == vs[2..];
    assert Values(Big, cs[1..], w1) == vs[1..];
    assert Values(Big, cs, w0) == vs;
  }

  /** Any datagram shorter than the packet header fails with struct.error before anything else happens. */
  lemma PacketHeaderShort(buf: seq<byte>)
    requires |buf| < 20
    ensures Decode(PacketHeader, buf, 0) == Err(StructError)
  {
    PacketHeaderLayout();
  }

  /**
   * The two values of a '!HH' record type at pos: big-endian u16 at pos and pos + 2, or the struct.error
   * of a buffer that ends before pos + 4. ReadPairIsDecode shows this is what Decode gives for such a type.
   */
  function ReadPair(st: Struct, buf: seq<byte>, pos: nat): (r: Result<(nat, nat)>)
    requires st.layout == Layout(Big, [Uint(2), Uint(2)])
    ensures r.Ok? <==> pos + 4 <= |buf|
  {
    if pos + 4 <= |buf| then Ok((BigEndian(buf[pos..pos + 2]), BigEndian(buf[pos + 2..pos + 4])))
    else Err(StructError)
  }

  /** unpack_from with a '!HH' record type: the two values of the record, or the struct.error Decode reports. */
  lemma ReadPairIsDecode(st: Struct, buf: seq<byte>, pos: nat)
    requires st.layout == Layout(Big, [Uint(2), Uint(2)])
    ensures Decode(st, buf, pos).Ok? <==> ReadPair(st, buf, pos).Ok?
    ensures Decode(st, buf, pos).Err? ==> ReadPair(st, buf, pos) == Err(Decode(st, buf, pos).error)
    ensures Decode(st, buf, pos).Ok? ==>
      var (a, b) := ReadPair(st, buf, pos).value; Decode(st, buf, pos).value.values == [a, b]
  {
    var cs := st.layout.codes;
    assert cs[1..][1..] == [];
    if pos + 4 <= |buf| {
      var w := buf[pos..pos + 4];
      assert w[..2] == buf[pos..pos + 2] && w[2..][..2] == buf[pos + 2..pos + 4];
      assert Values(Big, cs[1..], w[2..]) == [BigEndian(buf[pos + 2..pos + 4])];
      assert Values(Big, cs, w) == [BigEndian(buf[pos..pos + 2]), BigEndian(buf[pos + 2..pos + 4])];
    }
  }

  /** How a parse ended. */
  datatype Status =
    | Finished           // the walk reached the end of the datagram
    | Failed(error: Error) // an exception escaped the generator
    | Closed             // the consumer raised on the last record yielded
    | Diverges           // the source loops forever from here on, yielding nothing new

  /** The records yielded by a walk, the template cache after it and how it ended. */
  datatype Outcome = Outcome(records: seq<Record<nat>>, cache: Cache, status: Status)

  /** The records yielded by one data flow set and how its loop ended. */
  datatype Run = Run(records: seq<Record<nat>>, status: Status)

  /** The parse of one datagram: the packet header (yielded alongside every record), the records, the cache, the end. */
  datatype ParseResult = ParseResult(header: Option<Record<nat>>, records: seq<Record<nat>>, cache: Cache, status: Status)

  function Prepend(rs: seq<Record<nat>>, o: Outcome): Outcome
  {
    Outcome(rs + o.records, o.cache, o.status)
  }

  lemma PrependTwice(rs: seq<Record<nat>>, more: seq<Record<nat>>, o: Outcome)
    ensures Prepend(rs, Prepend(more, o)) == Prepend(rs + more, o)
  {
    assert rs + (more + o.records) == rs + more + o.records;
  }

  function Then(rs: seq<Record<nat>>, r: Run): Run
  {
    Run(rs + r.records, r.status)
  }

  /**
   * The first n (fieldType, fieldLength) pairs of a template record list starting at pos, or struct.error
   * when the buffer ends before all of them.
   */
  function TemplateFields(buf: seq<byte>, pos: nat, n: nat): (r: Result<seq<TemplateField>>)
    ensures r.Ok? <==> n == 0 || pos + 4 * n <= |buf|
    ensures r.Err? ==> r.error == StructError
    ensures r.Ok? ==> |r.value| == n
  {
    if n == 0 then Ok([])
    else match TemplateFields(buf, pos, n - 1)
      case Err(e) => Err(e)
      case Ok(fs) =>
        match ReadPair(FlowSetTplRecord, buf, pos + 4 * (n - 1))
        case Err(e) => Err(e)
        case Ok(p) => Ok(fs + [TemplateField(p.0, p.1)])
  }

  /** Field pair i of a template is the two big-endian u16 at 4 * i bytes past the template header. */
  lemma {:induction false} TemplateFieldAt(buf: seq<byte>, pos: nat, n: nat, i: nat)
    requires TemplateFields(buf, pos, n).Ok? && i < n
    ensures TemplateFields(buf, pos, n).value[i]
         == TemplateField(BigEndian(buf[pos + 4 * i..pos + 4 * i + 2]), BigEndian(buf[pos + 4 * i + 2..pos + 4 * i + 4]))
  {
    if i < n - 1 {
      TemplateFieldAt(buf, pos, n - 1, i);
    }
  }

  /**
   * The template flow set between pos and end: while the cursor is below end, a (templateId, fieldCount)
   * header and fieldCount field pairs, compiled and stored under (addr, templateId). The first exception
   * ends the walk; the templates stored before it stay.
   */
  function TemplateSet(table: FieldTypeTable, buf: seq<byte>, addr: Exporter, pos: nat, end: nat, cache: Cache): (o: Outcome)
    ensures o.records == []
    ensures o.status == Finished || o.status.Failed?
    decreases end - pos
  {
    if pos >= end then Outcome([], cache, Finished)
    else match ReadPair(FlowSetTplHeader, buf, pos)
      case Err(e) => Outcome([], cache, Failed(e))
      case Ok(h) =>
        match TemplateFields(buf, pos + 4, h.1)
        case Err(e) => Outcome([], cache, Failed(e))
        case Ok(fields) =>
          match Compile(table, fields)
          case Err(e) => Outcome([], cache, Failed(e))
          case Ok(st) => TemplateSet(table, buf, addr, pos + 4 + 4 * h.1, end, Put(cache, addr, h.0, st))
  }

  /** A template that reads and compiles is stored, and the loop goes on after its last field pair. */
  lemma TemplateSetNext(table: FieldTypeTable, buf: seq<byte>, addr: Exporter, pos: nat, end: nat, cache: Cache,
                        id: nat, n: nat, fields: seq<TemplateField>, st: Struct, next: nat, after: Cache)
    requires pos < end && ReadPair(FlowSetTplHeader, buf, pos) == Ok((id, n))
    requires TemplateFields(buf, pos + 4, n) == Ok(fields) && Compile(table, fields) == Ok(st)
    requires next == pos + 4 + 4 * n && after == Put(cache, addr, id, st)
    ensures TemplateSet(table, buf, addr, pos, end, cache) == TemplateSet(table, buf, addr, next, end, after)
  {
  }

  /**
   * The data flow set between pos and end under template st: a record at every multiple of the template
   * size while a whole record fits before end; the bytes after the last whole record are skipped.
   */
  function DataSet(st: Struct, buf: seq<byte>, pos: nat, end: nat, closeAfter: Record<nat> -> bool): Run
    decreases end - pos
  {
    if pos + StructSize(st) > end then Run([], Finished)
    else match Decode(st, buf, pos)
      case Err(e) => Run([], Failed(e))
      case Ok(rec) =>
        if closeAfter(rec) then Run([rec], Closed)
        else if StructSize(st) == 0 then Run([rec], Diverges)
        else Then([rec], DataSet(st, buf, pos + StructSize(st), end, closeAfter))
  }

  /** A record that decodes inside the flow set is yielded; the loop stops after it or goes on one template size later. */
  lemma DataSetNext(st: Struct, buf: seq<byte>, pos: nat, end: nat, closeAfter: Record<nat> -> bool, rec: Record<nat>)
    requires pos + StructSize(st) <= end && Decode(st, buf, pos) == Ok(rec)
    ensures DataSet(st, buf, pos, end, closeAfter)
         == if closeAfter(rec) then Run([rec], Closed)
            else if StructSize(st) == 0 then Run([rec], Diverges)
            else Then([rec], DataSet(st, buf, pos + StructSize(st), end, closeAfter))
  {
  }

  lemma ThenTwice(rs: seq<Record<nat>>, more: seq<Record<nat>>, r: Run)
    ensures Then(rs, Then(more, r)) == Then(rs + more, r)
  {
    assert rs + (more + r.records) == rs + more + r.records;
  }

  /** One flow set by its id: templates for 0, data for a matched id above 255, nothing for the rest. */
  function FlowSet(table: FieldTypeTable, buf: seq<byte>, addr: Exporter, id: nat, pos: nat, end: nat,
                   cache: Cache, closeAfter: Record<nat> -> bool): Outcome
  {
    if id == 0 then TemplateSet(table, buf, addr, pos, end, cache)
    else if id == 1 then Outcome([], cache, Finished)
    else if id > 255 then
      match Lookup(cache, addr, id)
      case None => Outcome([], cache, Finished)
      case Some(st) => var r := DataSet(st, buf, pos, end, closeAfter); Outcome(r.records, cache, r.status)
    else Outcome([], cache, Finished)
  }

  /** One pass of the flow-set loop: what the flow set at offset yields, and where the next flow set starts. */
  datatype Step = Step(outcome: Outcome, next: nat)

  /**
   * The flow set at offset: its header, then the flow set it announces between offset + 4 and offset + length.
   * The next flow set starts at offset + length; a length of 0 makes the loop repeat this flow set forever.
   */
  function FlowSetAt(table: FieldTypeTable, buf: seq<byte>, addr: Exporter, offset: nat, cache: Cache,
                     closeAfter: Record<nat> -> bool): (s: Step)
    ensures ReadPair(FlowSetHeader, buf, offset).Ok? ==> s.next == offset + ReadPair(FlowSetHeader, buf, offset).value.1
    ensures ReadPair(FlowSetHeader, buf, offset).Ok? && ReadPair(FlowSetHeader, buf, offset).value.1 == 0 ==> s.outcome.status != Finished
    ensures ReadPair(FlowSetHeader, buf, offset).Err? ==> s.outcome.status.Failed? && s.outcome.records == []
    ensures s.outcome.status == Finished ==> s.next > offset
  {
    match ReadPair(FlowSetHeader, buf, offset)
    case Err(e) => Step(Outcome([], cache, Failed(e)), offset)
    case Ok(h) =>
      var o := FlowSet(table, buf, addr, h.0, offset + 4, offset + h.1, cache, closeAfter);
      if o.status == Finished && h.1 == 0 then Step(Outcome(o.records, o.cache, Diverges), offset)
      else Step(o, offset + h.1)
  }

  /** The flow sets from offset to the end of the datagram, each one starting where the previous one's length ends. */
  function Walk(table: FieldTypeTable, buf: seq<byte>, addr: Exporter, offset: nat, cache: Cache,
                closeAfter: Record<nat> -> bool): Outcome
    decreases |buf| - offset
  {
    if offset >= |buf| then Outcome([], cache, Finished)
    else
      var s := FlowSetAt(table, buf, addr, offset, cache, closeAfter);
      if s.outcome.status != Finished then s.outcome
      else Prepend(s.outcome.records, Walk(table, buf, addr, s.next, s.outcome.cache, closeAfter))
  }

  /** The flow set at offset, once its header is read. */
  lemma FlowSetAtHeader(table: FieldTypeTable, buf: seq<byte>, addr: Exporter, offset: nat, cache: Cache,
                        closeAfter: Record<nat> -> bool, id: nat, length: nat, o: Outcome)
    requires ReadPair(FlowSetHeader, buf, offset) == Ok((id, length))
    requires o == FlowSet(table, buf, addr, id, offset + 4, offset + length, cache, closeAfter)
    ensures FlowSetAt(table, buf, addr, offset, cache, closeAfter)
         == if o.status == Finished && length == 0 then Step(Outcome(o.records, o.cache, Diverges), offset) else Step(o, offset + length)
  {
  }

  /** parse(buffer, addr) for a parser configured with version. */
  function ParseDatagram(version: nat, table: FieldTypeTable, buf: seq<byte>, addr: Exporter, cache: Cache,
                 closeAfter: Record<nat> -> bool): ParseResult
  {
    match Decode(PacketHeader, buf, 0)
    case Err(e) => ParseResult(None, [], cache, Failed(e))
    case Ok(h) =>
      if h.values[0] != version then ParseResult(Some(h), [], cache, Finished)
      else var o := Walk(table, buf, addr, 20, cache, closeAfter); ParseResult(Some(h), o.records, o.cache, o.status)
  }

  /**
   * The record loop of a data flow set: decodes and yields one record per template size while a whole
   * record fits before end.
   */
  method ReadDataRecords(st: Struct, buf: seq<byte>, pos: nat, end: nat, closeAfter: Record<nat> -> bool)
    returns (records: seq<Record<nat>>, status: Status)
    ensures Run(records, status) == DataSet(st, buf, pos, end, closeAfter)
  {
    records := [];
    var recordOffset := pos;
    while recordOffset + StructSize(st) <= end
      invariant DataSet(st, buf, pos, end, closeAfter) == Then(records, DataSet(st, buf, recordOffset, end, closeAfter))
      decreases end - recordOffset
    {
      var fs := Decode(st, buf, recordOffset);
      if fs.Err? {
        assert Then(records, Run([], Failed(fs.error))) == Run(records, Failed(fs.error));
        return records, Failed(fs.error);
      }
      DataSetNext(st, buf, recordOffset, end, closeAfter, fs.value);
      ThenTwice(records, [fs.value], DataSet(st, buf, recordOffset + StructSize(st), end, closeAfter));
      records := records + [fs.value];
      if closeAfter(fs.value) {
        return records, Closed;
      }
      if StructSize(st) == 0 {
        return records, Diverges;
      }
      recordOffset := recordOffset + StructSize(st);
    }
    status := Finished;
  }

  /** The field loop of one template: fieldCount (fieldType, fieldLength) pairs read back to back from pos. */
  method ReadTemplateFields(buf: seq<byte>, pos: nat, fieldCount: nat) returns (r: Result<seq<TemplateField>>)
    ensures r == TemplateFields(buf, pos, fieldCount)
  {
    var records: seq<TemplateField> := [];
    var fsOffset := pos;
    var i := 0;
    while i < fieldCount
      invariant i <= fieldCount && fsOffset == pos + 4 * i
      invariant TemplateFields(buf, pos, i) == Ok(records)
    {
      var record := ReadPair(FlowSetTplRecord, buf, fsOffset);
      if record.Err? {
        return Err(record.error);
      }
      records := records + [TemplateField(record.value.0, record.value.1)];
      fsOffset := fsOffset + 4;
      i := i + 1;
    }
    return Ok(records);
  }

  /** A NetFlow parser for one protocol version, with its own template cache. */
  class Parser {
    const version: nat
    const matcher: TemplateMatcher

    constructor(version: nat)
      ensures this.version == version
      ensures fresh(matcher) && matcher.fields.entries == Table && matcher.fields.Valid()
      ensures matcher.dyn == map[] && matcher.statics == map[]
    {
      this.version := version;
      matcher := new TemplateMatcher();
    }

    /** add_template(*field_names): registers a static template with the matcher. */
    method AddTemplate(names: seq<string>) returns (r: Result<Struct>)
      modifies matcher
      ensures r == CompileStatic(matcher.fields, names)
      ensures matcher.statics == if r.Ok? then old(matcher.statics)[StructSize(r.value) + 4 := r.value] else old(matcher.statics)
      ensures matcher.dyn == old(matcher.dyn)
    {
      r := matcher.AddStaticTemplate(names);
    }

    /** The template loop of a flow set with id 0, from pos to end. */
    method ReadTemplates(buf: seq<byte>, addr: Exporter, pos: nat, end: nat) returns (status: Status)
      modifies matcher
      ensures Outcome([], matcher.dyn, status) == TemplateSet(matcher.fields, buf, addr, pos, end, old(matcher.dyn))
      ensures matcher.statics == old(matcher.statics)
    {
      var fsOffset := pos;
      while fsOffset < end
        invariant TemplateSet(matcher.fields, buf, addr, pos, end, old(matcher.dyn))
               == TemplateSet(matcher.fields, buf, addr, fsOffset, end, matcher.dyn)
        invariant matcher.statics == old(matcher.statics)
        decreases end - fsOffset
      {
        ghost var at, before := fsOffset, matcher.dyn;
        var tplHeader := ReadPair(FlowSetTplHeader, buf, fsOffset);
        if tplHeader.Err? {
          return Failed(tplHeader.error);
        }
        var (templateId, fieldCount) := tplHeader.value;
        var tplRecords := ReadTemplateFields(buf, fsOffset + 4, fieldCount);
        if tplRecords.Err? {
          return Failed(tplRecords.error);
        }
        fsOffset := fsOffset + 4 + 4 * fieldCount;
        var compiled := matcher.UpdateTemplate(addr, templateId, tplRecords.value);
        if compiled.Err? {
          return Failed(compiled.error);
        }
        TemplateSetNext(matcher.fields, buf, addr, at, end, before, templateId, fieldCount, tplRecords.value, compiled.value,
                        fsOffset, matcher.dyn);
      }
      status := Finished;
    }

    /** One flow set, dispatched on its id: templates for 0, nothing for 1 and 2-255, records for a matched id above 255. */
    method ReadFlowSet(buf: seq<byte>, addr: Exporter, flowSetId: nat, fsOffset: nat, end: nat, closeAfter: Record<nat> -> bool)
      returns (records: seq<Record<nat>>, status: Status)
      modifies matcher
      ensures Outcome(records, matcher.dyn, status) == FlowSet(matcher.fields, buf, addr, flowSetId, fsOffset, end, old(matcher.dyn), closeAfter)
      ensures matcher.statics == old(matcher.statics)
    {
      records, status := [], Finished;
      if flowSetId == 0 {
        status := ReadTemplates(buf, addr, fsOffset, end);
      } else if flowSetId == 1 {
      } else if flowSetId > 255 {
        var template := matcher.Match(addr, flowSetId);
        if template.Some? {
          records, status := ReadDataRecords(template.value, buf, fsOffset, end, closeAfter);
        }
      }
    }

    /** One pass of the flow-set loop of parse: the flow-set header at offset and the flow set it announces. */
    method ReadNextFlowSet(buf: seq<byte>, addr: Exporter, offset: nat, closeAfter: Record<nat> -> bool)
      returns (records: seq<Record<nat>>, status: Status, next: nat)
      modifies matcher
      ensures Step(Outcome(records, matcher.dyn, status), next) == FlowSetAt(matcher.fields, buf, addr, offset, old(matcher.dyn), closeAfter)
      ensures matcher.statics == old(matcher.statics)
    {
      var fsHeader := ReadPair(FlowSetHeader, buf, offset);
      if fsHeader.Err? {
        return [], Failed(fsHeader.error), offset;
      }
      var (flowSetId, length) := fsHeader.value;
      ghost var before := matcher.dyn;
      records, status := ReadFlowSet(buf, addr, flowSetId, offset + 4, offset + length, closeAfter);
      FlowSetAtHeader(matcher.fields, buf, addr, offset, before, closeAfter, flowSetId, length, Outcome(records, matcher.dyn, status));
      next := offset + length;
      if status == Finished && length == 0 {
        status, next := Diverges, offset;
      }
    }

    /** The flow-set loop of parse: from start to the end of the datagram, advancing by each declared length. */
    method ReadFlowSets(buf: seq<byte>, addr: Exporter, start: nat, closeAfter: Record<nat> -> bool)
      returns (records: seq<Record<nat>>, status: Status)
      modifies matcher
      ensures Outcome(records, matcher.dyn, status) == Walk(matcher.fields, buf, addr, start, old(matcher.dyn), closeAfter)
      ensures matcher.statics == old(matcher.statics)
    {
      records := [];
      var offset := start;
      while offset < |buf|
        invariant Walk(matcher.fields, buf, addr, start, old(matcher.dyn), closeAfter)
               == Prepend(records, Walk(matcher.fields, buf, addr, offset, matcher.dyn, closeAfter))
        invariant matcher.statics == old(matcher.statics)
        decreases |buf| - offset
      {
        var fsRecords, fsStatus, next := ReadNextFlowSet(buf, addr, offset, closeAfter);
        PrependTwice(records, fsRecords, Walk(matcher.fields, buf, addr, next, matcher.dyn, closeAfter));
        records := records + fsRecords;
        if fsStatus != Finished {
          return records, fsStatus;
        }
        offset := next;
      }
      status := Finished;
    }

    /** parse(buffer, addr): the header, the records yielded in order, and how the walk ended. */
    method Parse(buf: seq<byte>, addr: Exporter, closeAfter: Record<nat> -> bool)
      returns (header: Option<Record<nat>>, records: seq<Record<nat>>, status: Status)
      modifies matcher
      ensures ParseResult(header, records, matcher.dyn, status)
           == ParseDatagram(version, matcher.fields, buf, addr, old(matcher.dyn), closeAfter)
      ensures matcher.statics == old(matcher.statics)
    {
      var pktHeader := Decode(PacketHeader, buf, 0);
      if pktHeader.Err? {
        return None, [], Failed(pktHeader.error);
      }
      header := Some(pktHeader.value);
      PacketHeaderFields(buf);
      if pktHeader.value.values[0] != version {
        return header, [], Finished;
      }
      records, status := ReadFlowSets(buf, addr, 20, closeAfter);
    }
  }
}
