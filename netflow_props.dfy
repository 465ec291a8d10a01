/**
 * What Parser.parse promises about a datagram: the header check, the advance by declared length, the record
 * count of a data flow set, template isolation between exporters, and where the consumer's exception stops it.
 */
module NetflowProperties {
  import opened Wrappers
  import opened Bytes
  import opened Structuple
  import opened FieldCatalog
  import opened Templates
  import opened Netflow

  /** A datagram shorter than the 20-byte header fails before any flow set is looked at. */
  lemma ShortDatagram(version: nat, table: FieldTypeTable, buf: seq<byte>, addr: Exporter, cache: Cache,
                      closeAfter: Record<nat> -> bool)
    requires |buf| < 20
    ensures ParseDatagram(version, table, buf, addr, cache, closeAfter) == ParseResult(None, [], cache, Failed(StructError))
  {
    PacketHeaderShort(buf);
  }

  /** A datagram of another version yields nothing and leaves the template cache as it was. */
  lemma VersionMismatch(version: nat, table: FieldTypeTable, buf: seq<byte>, addr: Exporter, cache: Cache,
                        closeAfter: Record<nat> -> bool)
    requires |buf| >= 20 && BigEndian(buf[0..2]) != version
    ensures var r := ParseDatagram(version, table, buf, addr, cache, closeAfter);
      r.header.Some? && r.records == [] && r.cache == cache && r.status == Finished
  {
    PacketHeaderFields(buf);
  }

  /** A datagram of the configured version is walked from byte 20, right after the header. */
  lemma VersionMatch(version: nat, table: FieldTypeTable, buf: seq<byte>, addr: Exporter, cache: Cache,
                     closeAfter: Record<nat> -> bool)
    requires |buf| >= 20 && BigEndian(buf[0..2]) == version
    ensures var r := ParseDatagram(version, table, buf, addr, cache, closeAfter);
      var o := Walk(table, buf, addr, 20, cache, closeAfter);
      r.header.Some? && r.records == o.records && r.cache == o.cache && r.status == o.status
  {
    PacketHeaderFields(buf);
  }

  /**
   * An options template flow set (id 1), a reserved id (2-255) and a data flow set whose template this
   * exporter never sent are skipped: the walk continues at offset + length with the same cache.
   */
  lemma SkippedFlowSet(table: FieldTypeTable, buf: seq<byte>, addr: Exporter, offset: nat, cache: Cache,
                       closeAfter: Record<nat> -> bool, id: nat, length: nat)
    requires offset < |buf| && ReadPair(FlowSetHeader, buf, offset) == Ok((id, length)) && length > 0
    requires id == 1 || 2 <= id <= 255 || (id > 255 && Lookup(cache, addr, id).None?)
    ensures Walk(table, buf, addr, offset, cache, closeAfter) == Walk(table, buf, addr, offset + length, cache, closeAfter)
  {
    var o := FlowSet(table, buf, addr, id, offset + 4, offset + length, cache, closeAfter);
    assert o == Outcome([], cache, Finished);
    FlowSetAtHeader(table, buf, addr, offset, cache, closeAfter, id, length, o);
    var w := Walk(table, buf, addr, offset + length, cache, closeAfter);
    assert [] + w.records == w.records;
  }

  /** A flow set that declares length 0 makes the loop repeat it forever without yielding or storing anything. */
  lemma ZeroLengthFlowSet(table: FieldTypeTable, buf: seq<byte>, addr: Exporter, offset: nat, cache: Cache,
                          closeAfter: Record<nat> -> bool, id: nat)
    requires offset < |buf| && ReadPair(FlowSetHeader, buf, offset) == Ok((id, 0))
    ensures Walk(table, buf, addr, offset, cache, closeAfter) == Outcome([], cache, Diverges)
  {
    if id > 255 && Lookup(cache, addr, id).Some? {
      var st := Lookup(cache, addr, id).value;
      assert offset + 4 + StructSize(st) > offset;
    }
  }

  lemma MulAtLeast(d: int, s: nat)
    requires d >= 1
    ensures d * s >= s
  {
  }

  lemma DivUnique(a: nat, s: nat, q: nat, r: nat)
    requires 0 < s && r < s && a == q * s + r
    ensures a / s == q
  {
    var q', r' := a / s, a % s;
    assert a == q' * s + r';
    assert (q - q') * s == q * s - q' * s && (q' - q) * s == q' * s - q * s;
    if q > q' {
      MulAtLeast(q - q', s);
    } else if q' > q {
      MulAtLeast(q' - q, s);
    }
  }

  /** One more whole record fits: the quotient grows by one. */
  lemma DivStep(a: nat, s: nat)
    requires 0 < s <= a
    ensures a / s == 1 + (a - s) / s
  {
    var q, r := (a - s) / s, (a - s) % s;
    assert a - s == q * s + r;
    assert (q + 1) * s == q * s + s;
    DivUnique(a, s, q + 1, r);
  }

  lemma ShiftByOne(pos: nat, k: nat, s: nat)
    requires k > 0
    ensures pos + k * s == pos + s + (k - 1) * s
    ensures pos + (k + 1) * s == pos + s + (k - 1 + 1) * s
  {
  }

  /** The records are the ones decoded at pos, pos + size, pos + 2 * size, ..., each ending by end. */
  ghost predicate RecordsAt(st: Struct, buf: seq<byte>, pos: nat, end: nat, records: seq<Record<nat>>)
    decreases |records|
  {
    records != [] ==>
      && pos + StructSize(st) <= end
      && Decode(st, buf, pos) == Ok(records[0])
      && RecordsAt(st, buf, pos + StructSize(st), end, records[1..])
  }

  /** Record k of a run laid out from pos sits at pos + k * size. */
  lemma {:induction false} RecordAt(st: Struct, buf: seq<byte>, pos: nat, end: nat, records: seq<Record<nat>>, k: nat)
    requires RecordsAt(st, buf, pos, end, records) && k < |records|
    ensures pos + (k + 1) * StructSize(st) <= end && Decode(st, buf, pos + k * StructSize(st)) == Ok(records[k])
    decreases k
  {
    var s := StructSize(st);
    if k > 0 {
      RecordAt(st, buf, pos + s, end, records[1..], k - 1);
      ShiftByOne(pos, k, s);
    }
  }

  /**
   * A data flow set under a template of size s > 0 yields the records decoded at pos + k * s for k = 0, 1, ...
   * while pos + (k + 1) * s <= end, in that order (RecordAt reads off record k).
   */
  lemma {:induction false} DataSetPositions(st: Struct, buf: seq<byte>, pos: nat, end: nat, closeAfter: Record<nat> -> bool)
    requires StructSize(st) > 0
    ensures RecordsAt(st, buf, pos, end, DataSet(st, buf, pos, end, closeAfter).records)
    decreases end - pos
  {
    var s := StructSize(st);
    var r := DataSet(st, buf, pos, end, closeAfter);
    if pos + s <= end && Decode(st, buf, pos).Ok? && !closeAfter(Decode(st, buf, pos).value) {
      DataSetPositions(st, buf, pos + s, end, closeAfter);
      var rest := DataSet(st, buf, pos + s, end, closeAfter);
      assert r.records[1..] == rest.records;
    }
  }

  /** The k-th record of a data flow set is the one decoded at pos + k * s. */
  lemma DataSetRecordAt(st: Struct, buf: seq<byte>, pos: nat, end: nat, closeAfter: Record<nat> -> bool, k: nat)
    requires StructSize(st) > 0 && k < |DataSet(st, buf, pos, end, closeAfter).records|
    ensures pos + (k + 1) * StructSize(st) <= end
    ensures Decode(st, buf, pos + k * StructSize(st)) == Ok(DataSet(st, buf, pos, end, closeAfter).records[k])
  {
    DataSetPositions(st, buf, pos, end, closeAfter);
    RecordAt(st, buf, pos, end, DataSet(st, buf, pos, end, closeAfter).records, k);
  }

  /**
   * When the data flow set lies inside the buffer and the consumer never raises, the loop ends normally after
   * (end - pos) / s records: the bytes after the last whole record are skipped.
   */
  lemma {:induction false} DataSetCount(st: Struct, buf: seq<byte>, pos: nat, end: nat, closeAfter: Record<nat> -> bool)
    requires StructSize(st) > 0 && pos <= end <= |buf|
    requires forall rec :: !closeAfter(rec)
    ensures var r := DataSet(st, buf, pos, end, closeAfter);
      r.status == Finished && |r.records| == (end - pos) / StructSize(st)
    decreases end - pos
  {
    var s := StructSize(st);
    if pos + s <= end {
      DataSetCount(st, buf, pos + s, end, closeAfter);
      DivStep(end - pos, s);
    } else {
      DivUnique(end - pos, s, 0, end - pos);
    }
  }

  /** A template flow set stores templates under this exporter only. */
  lemma {:induction false} TemplateSetIsolation(table: FieldTypeTable, buf: seq<byte>, addr: Exporter, pos: nat, end: nat,
                                                cache: Cache, other: Exporter, id: nat)
    requires other != addr
    ensures Lookup(TemplateSet(table, buf, addr, pos, end, cache).cache, other, id) == Lookup(cache, other, id)
    decreases end - pos
  {
    if pos < end {
      var h := ReadPair(FlowSetTplHeader, buf, pos);
      if h.Ok? {
        var fields := TemplateFields(buf, pos + 4, h.value.1);
        if fields.Ok? {
          var st := Compile(table, fields.value);
          if st.Ok? {
            var next := Put(cache, addr, h.value.0, st.value);
            TemplateSetIsolation(table, buf, addr, pos + 4 + 4 * h.value.1, end, next, other, id);
            LookupPut(cache, addr, h.value.0, st.value, other, id);
          }
        }
      }
    }
  }

  /** One flow set from addr leaves every other exporter's templates as they were. */
  lemma FlowSetAtIsolation(table: FieldTypeTable, buf: seq<byte>, addr: Exporter, offset: nat, cache: Cache,
                           closeAfter: Record<nat> -> bool, other: Exporter, id: nat)
    requires other != addr
    ensures Lookup(FlowSetAt(table, buf, addr, offset, cache, closeAfter).outcome.cache, other, id) == Lookup(cache, other, id)
  {
    var h := ReadPair(FlowSetHeader, buf, offset);
    if h.Ok? {
      var o := FlowSet(table, buf, addr, h.value.0, offset + 4, offset + h.value.1, cache, closeAfter);
      FlowSetAtHeader(table, buf, addr, offset, cache, closeAfter, h.value.0, h.value.1, o);
      if h.value.0 == 0 {
        TemplateSetIsolation(table, buf, addr, offset + 4, offset + h.value.1, cache, other, id);
      }
    }
  }

  /**
   * Template isolation: a datagram from addr changes match(other, id) for no other exporter, so a data flow
   * set is only ever decoded with a template its own exporter sent.
   */
  lemma {:induction false} WalkIsolation(table: FieldTypeTable, buf: seq<byte>, addr: Exporter, offset: nat, cache: Cache,
                                         closeAfter: Record<nat> -> bool, other: Exporter, id: nat)
    requires other != addr
    ensures Lookup(Walk(table, buf, addr, offset, cache, closeAfter).cache, other, id) == Lookup(cache, other, id)
    decreases |buf| - offset
  {
    if offset < |buf| {
      var s := FlowSetAt(table, buf, addr, offset, cache, closeAfter);
      FlowSetAtIsolation(table, buf, addr, offset, cache, closeAfter, other, id);
      if s.outcome.status == Finished {
        WalkIsolation(table, buf, addr, s.next, s.outcome.cache, closeAfter, other, id);
      }
    }
  }

  /** The same for a whole datagram. */
  lemma ParseIsolation(version: nat, table: FieldTypeTable, buf: seq<byte>, addr: Exporter, cache: Cache,
                       closeAfter: Record<nat> -> bool, other: Exporter, id: nat)
    requires other != addr
    ensures Lookup(ParseDatagram(version, table, buf, addr, cache, closeAfter).cache, other, id) == Lookup(cache, other, id)
  {
    WalkIsolation(table, buf, addr, 20, cache, closeAfter, other, id);
  }

  /**
   * The consumer's exception ends the parse: no record before the last one made the consumer raise, and the
   * parse ends Closed exactly when the last record did.
   */
  ghost predicate StopsAtRaise(records: seq<Record<nat>>, status: Status, closeAfter: Record<nat> -> bool)
  {
    && (forall i :: 0 <= i < |records| - 1 ==> !closeAfter(records[i]))
    && (status == Closed <==> records != [] && closeAfter(records[|records| - 1]))
  }

  lemma {:induction false} DataSetStopsAtRaise(st: Struct, buf: seq<byte>, pos: nat, end: nat, closeAfter: Record<nat> -> bool)
    ensures var r := DataSet(st, buf, pos, end, closeAfter); StopsAtRaise(r.records, r.status, closeAfter)
    decreases end - pos
  {
    var s := StructSize(st);
    if pos + s <= end && Decode(st, buf, pos).Ok? {
      var rec := Decode(st, buf, pos).value;
      DataSetNext(st, buf, pos, end, closeAfter, rec);
      if !closeAfter(rec) && s > 0 {
        DataSetStopsAtRaise(st, buf, pos + s, end, closeAfter);
        var rest := DataSet(st, buf, pos + s, end, closeAfter);
        assert StopsAtRaise([rec], Finished, closeAfter);
        StopsAtRaiseAppend([rec], rest.records, rest.status, closeAfter);
      }
    }
  }

  lemma FlowSetStopsAtRaise(table: FieldTypeTable, buf: seq<byte>, addr: Exporter, id: nat, pos: nat, end: nat,
                            cache: Cache, closeAfter: Record<nat> -> bool)
    ensures var o := FlowSet(table, buf, addr, id, pos, end, cache, closeAfter); StopsAtRaise(o.records, o.status, closeAfter)
  {
    if id > 255 && Lookup(cache, addr, id).Some? {
      DataSetStopsAtRaise(Lookup(cache, addr, id).value, buf, pos, end, closeAfter);
    }
  }

  lemma FlowSetAtStopsAtRaise(table: FieldTypeTable, buf: seq<byte>, addr: Exporter, offset: nat, cache: Cache,
                              closeAfter: Record<nat> -> bool)
    ensures var o := FlowSetAt(table, buf, addr, offset, cache, closeAfter).outcome;
      StopsAtRaise(o.records, o.status, closeAfter)
  {
    var h := ReadPair(FlowSetHeader, buf, offset);
    if h.Ok? {
      var o := FlowSet(table, buf, addr, h.value.0, offset + 4, offset + h.value.1, cache, closeAfter);
      FlowSetStopsAtRaise(table, buf, addr, h.value.0, offset + 4, offset + h.value.1, cache, closeAfter);
      FlowSetAtHeader(table, buf, addr, offset, cache, closeAfter, h.value.0, h.value.1, o);
    }
  }

  /** Records that ended normally, followed by a run that stops at the raise, still stop at the raise. */
  lemma StopsAtRaiseAppend(first: seq<Record<nat>>, rest: seq<Record<nat>>, status: Status, closeAfter: Record<nat> -> bool)
    requires StopsAtRaise(first, Finished, closeAfter) && StopsAtRaise(rest, status, closeAfter)
    ensures StopsAtRaise(first + rest, status, closeAfter)
  {
    var all := first + rest;
    if rest != [] {
      assert all[|all| - 1] == rest[|rest| - 1];
    } else if first != [] {
      assert all[|all| - 1] == first[|first| - 1];
    }
    forall i | 0 <= i < |all| - 1
      ensures !closeAfter(all[i])
    {
      if i < |first| {
        assert all[i] == first[i];
      } else {
        assert all[i] == rest[i - |first|];
      }
    }
  }

  lemma {:induction false} WalkStopsAtRaise(table: FieldTypeTable, buf: seq<byte>, addr: Exporter, offset: nat, cache: Cache,
                                            closeAfter: Record<nat> -> bool)
    ensures var o := Walk(table, buf, addr, offset, cache, closeAfter); StopsAtRaise(o.records, o.status, closeAfter)
    decreases |buf| - offset
  {
    if offset < |buf| {
      var s := FlowSetAt(table, buf, addr, offset, cache, closeAfter);
      FlowSetAtStopsAtRaise(table, buf, addr, offset, cache, closeAfter);
      if s.outcome.status == Finished {
        WalkStopsAtRaise(table, buf, addr, s.next, s.outcome.cache, closeAfter);
        var rest := Walk(table, buf, addr, s.next, s.outcome.cache, closeAfter);
        StopsAtRaiseAppend(s.outcome.records, rest.records, rest.status, closeAfter);
      }
    }
  }

  /** For a whole datagram: the consumer's exception is always the last event of the parse. */
  lemma ParseStopsAtRaise(version: nat, table: FieldTypeTable, buf: seq<byte>, addr: Exporter, cache: Cache,
                          closeAfter: Record<nat> -> bool)
    ensures var r := ParseDatagram(version, table, buf, addr, cache, closeAfter); StopsAtRaise(r.records, r.status, closeAfter)
  {
    WalkStopsAtRaise(table, buf, addr, 20, cache, closeAfter);
  }
}
