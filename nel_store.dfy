/**
 * PgNelStoreProtocol of daemon.py: every record the NetFlow v9 parser yields is filtered (both IPv4
 * addresses present, NAT_EVENT equal to 1), normalised into a seven-column row and appended to a buffer;
 * a buffer that reaches buffer_size is handed to the workers pool whole and replaced by an empty one.
 * MultiProtocol hands each datagram to its sinks in order, and the workers turn a batch into the
 * tab-separated text that COPY reads.
 */
module NelStore {
  import opened Wrappers
  import opened Text
  import opened Structuple
  import opened Ip
  import opened Templates
  import opened Netflow
  import opened NetflowProperties

  /** The row appended for one NAT event, in the column order of nfcollect.log_items. */
  datatype Row = Row(eventTime: nat, srcAddr: Address, dstAddr: Address, dstPort: nat,
                     xlateSrcAddr: Address, xlateSrcPort: nat, protocol: nat)

  // ---------------------------------------------------------------------
  // _handle_flow_set: which records are kept, and the row each one becomes.

  /**
   * The row of a NAT creation event, its attributes read in the order the source reads them: the three
   * addresses converted by ip_address, then the event time in whole seconds, the ports and the protocol.
   */
  function NatRow(rec: Record<nat>): Result<Row>
  {
    var src :- Get(rec, "IPV4_SRC_ADDR");
    var srcAddr :- FromInt(src);
    var dst :- Get(rec, "IPV4_DST_ADDR");
    var dstAddr :- FromInt(dst);
    var xlate :- Get(rec, "XLATE_SRC_ADDR_IPV4");
    var xlateAddr :- FromInt(xlate);
    var time :- Get(rec, "EVENT_TIME_MSEC");
    var dstPort :- Get(rec, "L4_DST_PORT");
    var xlatePort :- Get(rec, "XLATE_SRC_PORT");
    var protocol :- Get(rec, "PROTOCOL");
    Ok(Row(time / 1000, srcAddr, dstAddr, dstPort, xlateAddr, xlatePort, protocol))
  }

  /**
   * _handle_flow_set(addr, header, fs): Ok(None) when the record is not kept, Ok(Some(row)) when the row is
   * appended, Err when an attribute lookup or an address conversion raises.
   */
  function Handle(rec: Record<nat>): (r: Result<Option<Row>>)
    ensures Has(rec, "IPV4_SRC_ADDR") == Ok(false) ==> r == Ok(None)
    ensures Has(rec, "IPV4_SRC_ADDR") == Ok(true) && Has(rec, "IPV4_DST_ADDR") == Ok(false) ==> r == Ok(None)
  {
    match Has(rec, "IPV4_SRC_ADDR")
    case Err(e) => Err(e)
    case Ok(hasSrc) =>
      if !hasSrc then Ok(None)
      else match Has(rec, "IPV4_DST_ADDR")
        case Err(e) => Err(e)
        case Ok(hasDst) =>
          if !hasDst then Ok(None)
          else match Get(rec, "NAT_EVENT")
            case Err(e) => Err(e)
            case Ok(event) =>
              if event != 1 then Ok(None)
              else match NatRow(rec)
                case Err(e) => Err(e)
                case Ok(row) => Ok(Some(row))
  }

  /** The consumer raises on this record, which closes the parser's generator. */
  predicate Raises(rec: Record<nat>)
  {
    Handle(rec).Err?
  }

  /**
   * A record is kept exactly when both addresses are attributes holding a value and NAT_EVENT is 1 (and none
   * of the row's lookups raises); the row then carries the event time in whole seconds and addresses that
   * convert back to the record's integers.
   */
  lemma HandleKeeps(rec: Record<nat>, row: Row)
    ensures Handle(rec) == Ok(Some(row)) <==>
      && Get(rec, "IPV4_SRC_ADDR").Ok? && Get(rec, "IPV4_DST_ADDR").Ok?
      && Get(rec, "NAT_EVENT") == Ok(1)
      && NatRow(rec) == Ok(row)
    ensures Handle(rec) == Ok(Some(row)) ==>
      && ToInt(row.srcAddr) == Get(rec, "IPV4_SRC_ADDR").value
      && ToInt(row.dstAddr) == Get(rec, "IPV4_DST_ADDR").value
      && ToInt(row.xlateSrcAddr) == Get(rec, "XLATE_SRC_ADDR_IPV4").value
      && row.eventTime == Get(rec, "EVENT_TIME_MSEC").value / 1000
      && Ok(row.dstPort) == Get(rec, "L4_DST_PORT")
      && Ok(row.xlateSrcPort) == Get(rec, "XLATE_SRC_PORT")
      && Ok(row.protocol) == Get(rec, "PROTOCOL")
  {
    HasGet(rec, "IPV4_SRC_ADDR");
    HasGet(rec, "IPV4_DST_ADDR");
    if Handle(rec) == Ok(Some(row)) {
      ToIntFromInt(Get(rec, "IPV4_SRC_ADDR").value);
      ToIntFromInt(Get(rec, "IPV4_DST_ADDR").value);
      ToIntFromInt(Get(rec, "XLATE_SRC_ADDR_IPV4").value);
    }
  }

  /** A record with both addresses but no NAT_EVENT attribute makes the handler raise. */
  lemma MissingNatEventRaises(rec: Record<nat>)
    requires Has(rec, "IPV4_SRC_ADDR") == Ok(true) && Has(rec, "IPV4_DST_ADDR") == Ok(true)
    requires "NAT_EVENT" !in rec.names
    ensures Handle(rec) == Err(NoSuchAttribute)
  {
  }

  /** A record with both addresses whose NAT_EVENT is not 1 (a deletion, say) is dropped without error. */
  lemma OtherEventsDropped(rec: Record<nat>, event: nat)
    requires Has(rec, "IPV4_SRC_ADDR") == Ok(true) && Has(rec, "IPV4_DST_ADDR") == Ok(true)
    requires Get(rec, "NAT_EVENT") == Ok(event) && event != 1
    ensures Handle(rec) == Ok(None)
  {
  }

  /** The rows of a run of records, handled in order until the first one that raises. */
  datatype Kept = Kept(rows: seq<Row>, error: Option<Error>)

  function Retain(recs: seq<Record<nat>>): (k: Kept)
    ensures |k.rows| <= |recs|
    ensures k.error.None? <==> forall i :: 0 <= i < |recs| ==> !Raises(recs[i])
  {
    if recs == [] then Kept([], None)
    else
      var k := Retain(recs[..|recs| - 1]);
      assert forall i :: 0 <= i < |recs| - 1 ==> recs[..|recs| - 1][i] == recs[i];
      if k.error.Some? then k
      else match Handle(recs[|recs| - 1])
        case Err(e) => Kept(k.rows, Some(e))
        case Ok(None) => k
        case Ok(Some(row)) => Kept(k.rows + [row], None)
  }

  /** Handling one more record: its row, if any, follows the rows before it. */
  lemma RetainNext(recs: seq<Record<nat>>, i: nat)
    requires i < |recs| && Retain(recs[..i]).error.None?
    ensures Retain(recs[..i + 1]) == match Handle(recs[i])
      case Err(e) => Kept(Retain(recs[..i]).rows, Some(e))
      case Ok(None) => Retain(recs[..i])
      case Ok(Some(row)) => Kept(Retain(recs[..i]).rows + [row], None)
  {
    assert recs[..i + 1][..i] == recs[..i];
  }

  /** Every row kept comes from a record the filter accepts, in record order. */
  lemma {:induction false} RetainRows(recs: seq<Record<nat>>, j: nat)
    requires j < |Retain(recs).rows|
    ensures exists i :: 0 <= i < |recs| && Handle(recs[i]) == Ok(Some(Retain(recs).rows[j]))
    decreases |recs|
  {
    var init := recs[..|recs| - 1];
    var k := Retain(init);
    if j < |k.rows| {
      RetainRows(init, j);
      var i :| 0 <= i < |init| && Handle(init[i]) == Ok(Some(k.rows[j]));
      assert recs[i] == init[i];
    } else {
      assert Handle(recs[|recs| - 1]) == Ok(Some(Retain(recs).rows[j]));
    }
  }

  // ---------------------------------------------------------------------
  // The buffer and the batches handed to addRequest.

  /** The current buffer and the batches already handed to the workers pool, oldest first. */
  datatype Batches = Batches(buffer: seq<Row>, requests: seq<seq<Row>>)

  /** The number of rows in every batch: buffer_size, or 1 for a buffer_size of 0 (one row is already >= 0). */
  function Capacity(bufferSize: nat): (c: nat)
    ensures c >= 1 && (bufferSize >= 1 ==> c == bufferSize)
  {
    if bufferSize == 0 then 1 else bufferSize
  }

  /** Append one row; a buffer that reaches buffer_size is submitted whole and replaced by an empty one. */
  function Append(bufferSize: nat, b: Batches, row: Row): Batches
  {
    var buffer := b.buffer + [row];
    if |buffer| >= bufferSize then Batches([], b.requests + [buffer]) else Batches(buffer, b.requests)
  }

  function AppendAll(bufferSize: nat, b: Batches, rows: seq<Row>): Batches
  {
    if rows == [] then b else Append(bufferSize, AppendAll(bufferSize, b, rows[..|rows| - 1]), rows[|rows| - 1])
  }

  lemma AppendAllNext(bufferSize: nat, b: Batches, rows: seq<Row>, row: Row)
    ensures AppendAll(bufferSize, b, rows + [row]) == Append(bufferSize, AppendAll(bufferSize, b, rows), row)
  {
    assert (rows + [row])[..|rows|] == rows;
  }

  function Flatten(batches: seq<seq<Row>>): seq<Row>
  {
    if batches == [] then [] else Flatten(batches[..|batches| - 1]) + batches[|batches| - 1]
  }

  /** Between two calls the buffer holds fewer rows than a batch, and every submitted batch is full. */
  ghost predicate Bounded(bufferSize: nat, b: Batches)
  {
    && |b.buffer| < Capacity(bufferSize)
    && forall i :: 0 <= i < |b.requests| ==> |b.requests[i]| == Capacity(bufferSize)
  }

  /** Appending a row keeps the buffer below buffer_size and submits only full batches. */
  lemma AppendBounded(bufferSize: nat, b: Batches, row: Row)
    requires Bounded(bufferSize, b)
    ensures Bounded(bufferSize, Append(bufferSize, b, row))
  {
  }

  /** No row is lost, duplicated or reordered: the batches, then the buffer, hold every row appended, in order. */
  lemma AppendConserves(bufferSize: nat, b: Batches, row: Row)
    ensures var n := Append(bufferSize, b, row); Flatten(n.requests) + n.buffer == Flatten(b.requests) + b.buffer + [row]
  {
    var n := Append(bufferSize, b, row);
    if |b.buffer + [row]| >= bufferSize {
      assert n.requests[..|n.requests| - 1] == b.requests;
      assert Flatten(n.requests) + n.buffer == Flatten(b.requests) + (b.buffer + [row]);
    }
  }

  /** The batches already submitted are never taken back or changed. */
  lemma AppendKeepsRequests(bufferSize: nat, b: Batches, row: Row)
    ensures var n := Append(bufferSize, b, row); b.requests <= n.requests && |n.requests| <= |b.requests| + 1
  {
  }

  lemma {:induction false} AppendAllBounded(bufferSize: nat, b: Batches, rows: seq<Row>)
    requires Bounded(bufferSize, b)
    ensures Bounded(bufferSize, AppendAll(bufferSize, b, rows))
    decreases |rows|
  {
    if rows != [] {
      AppendAllBounded(bufferSize, b, rows[..|rows| - 1]);
      AppendBounded(bufferSize, AppendAll(bufferSize, b, rows[..|rows| - 1]), rows[|rows| - 1]);
    }
  }

  lemma {:induction false} AppendAllConserves(bufferSize: nat, b: Batches, rows: seq<Row>)
    ensures var n := AppendAll(bufferSize, b, rows); Flatten(n.requests) + n.buffer == Flatten(b.requests) + b.buffer + rows
    decreases |rows|
  {
    if rows != [] {
      var init := rows[..|rows| - 1];
      AppendAllConserves(bufferSize, b, init);
      AppendConserves(bufferSize, AppendAll(bufferSize, b, init), rows[|rows| - 1]);
      assert init + [rows[|rows| - 1]] == rows;
    }
  }

  lemma {:induction false} AppendAllKeepsRequests(bufferSize: nat, b: Batches, rows: seq<Row>)
    ensures b.requests <= AppendAll(bufferSize, b, rows).requests
    decreases |rows|
  {
    if rows != [] {
      AppendAllKeepsRequests(bufferSize, b, rows[..|rows| - 1]);
      AppendKeepsRequests(bufferSize, AppendAll(bufferSize, b, rows[..|rows| - 1]), rows[|rows| - 1]);
    }
  }

  /** Below the threshold nothing is submitted: the rows simply join the buffer. */
  lemma {:induction false} AppendAllBelow(bufferSize: nat, b: Batches, rows: seq<Row>)
    requires |b.buffer| + |rows| < bufferSize
    ensures AppendAll(bufferSize, b, rows) == Batches(b.buffer + rows, b.requests)
    decreases |rows|
  {
    if rows != [] {
      var init := rows[..|rows| - 1];
      AppendAllBelow(bufferSize, b, init);
      assert b.buffer + init + [rows[|rows| - 1]] == b.buffer + rows;
    }
  }

  /**
   * The flush: from an empty buffer, exactly buffer_size kept rows make exactly one submission, of all of
   * them in order, and leave the buffer empty.
   */
  lemma FlushAtThreshold(bufferSize: nat, b: Batches, rows: seq<Row>)
    requires bufferSize >= 1 && b.buffer == [] && |rows| == bufferSize
    ensures AppendAll(bufferSize, b, rows) == Batches([], b.requests + [rows])
  {
    var init := rows[..|rows| - 1];
    AppendAllBelow(bufferSize, b, init);
    assert AppendAll(bufferSize, b, init) == Batches(init, b.requests) by {
      assert [] + init == init;
    }
    assert init + [rows[|rows| - 1]] == rows;
  }

  // ---------------------------------------------------------------------
  // datagram_received and report_stats of one sink, as a function of its state.

  /** What one PgNelStoreProtocol holds: the batching state, the two counters and its parser's template cache. */
  datatype SinkState = SinkState(batches: Batches, statDgrams: nat, statFlowsets: nat, cache: Cache)

  /** The sink after one datagram, and how the call ended (an exception, or a parse that never returns). */
  datatype Reception = Reception(state: SinkState, status: Status)

  /**
   * datagram_received(buffer, addr): one more datagram; one more flow set per record the parser yields; the
   * rows of the kept records appended in yield order; the cache as the parse left it. The handler's exception
   * closes the generator, so the parse stops at the record that raised.
   */
  function Receive(version: nat, table: FieldCatalog.FieldTypeTable, bufferSize: nat, s: SinkState, buf: seq<Bytes.byte>,
                   addr: Exporter): Reception
  {
    Received(bufferSize, s, ParseDatagram(version, table, buf, addr, s.cache, Raises))
  }

  /** The sink after a datagram whose parse is p. */
  function Received(bufferSize: nat, s: SinkState, p: ParseResult): Reception
  {
    var k := Retain(p.records);
    Reception(SinkState(AppendAll(bufferSize, s.batches, k.rows), s.statDgrams + 1, s.statFlowsets + |p.records|, p.cache),
              if k.error.Some? then Failed(k.error.value) else p.status)
  }

  /** The handler gets through every record the parser yields: only the last one can raise, and that closes it. */
  lemma HandledLast(records: seq<Record<nat>>, handled: nat, err: Option<Error>)
    requires forall i :: 0 <= i < |records| - 1 ==> !Raises(records[i])
    requires handled <= |records|
    requires err.None? ==> handled == |records|
    requires err.Some? ==> handled >= 1 && Raises(records[handled - 1])
    ensures records[..handled] == records
  {
  }

  /** Received, from the batches and the error of the records handled, once they are all of them. */
  lemma ReceivedOf(bufferSize: nat, s: SinkState, p: ParseResult, err: Option<Error>, batches: Batches)
    requires err == Retain(p.records).error
    requires batches == AppendAll(bufferSize, s.batches, Retain(p.records).rows)
    ensures Received(bufferSize, s, p)
         == Reception(SinkState(batches, s.statDgrams + 1, s.statFlowsets + |p.records|, p.cache),
                      if err.Some? then Failed(err.value) else p.status)
  {
  }

  /** A datagram keeps the buffer below buffer_size and every submitted batch exactly buffer_size rows long. */
  lemma ReceiveBounded(version: nat, table: FieldCatalog.FieldTypeTable, bufferSize: nat, s: SinkState,
                       buf: seq<Bytes.byte>, addr: Exporter)
    requires Bounded(bufferSize, s.batches)
    ensures Bounded(bufferSize, Receive(version, table, bufferSize, s, buf, addr).state.batches)
  {
    var p := ParseDatagram(version, table, buf, addr, s.cache, Raises);
    AppendAllBounded(bufferSize, s.batches, Retain(p.records).rows);
  }

  /**
   * A datagram adds exactly the rows of its kept records, in wire order, after everything received before;
   * earlier batches stay submitted as they were.
   */
  lemma ReceiveConserves(version: nat, table: FieldCatalog.FieldTypeTable, bufferSize: nat, s: SinkState,
                         buf: seq<Bytes.byte>, addr: Exporter)
    ensures var n := Receive(version, table, bufferSize, s, buf, addr).state.batches;
      var p := ParseDatagram(version, table, buf, addr, s.cache, Raises);
      && Flatten(n.requests) + n.buffer == Flatten(s.batches.requests) + s.batches.buffer + Retain(p.records).rows
      && s.batches.requests <= n.requests
  {
    var p := ParseDatagram(version, table, buf, addr, s.cache, Raises);
    AppendAllConserves(bufferSize, s.batches, Retain(p.records).rows);
    AppendAllKeepsRequests(bufferSize, s.batches, Retain(p.records).rows);
  }

  /** A datagram of another version only counts the datagram: no flow set, no row, no template. */
  lemma ReceiveOtherVersion(version: nat, table: FieldCatalog.FieldTypeTable, bufferSize: nat, s: SinkState,
                            buf: seq<Bytes.byte>, addr: Exporter)
    requires |buf| >= 20 && Bytes.BigEndian(buf[0..2]) != version
    ensures Receive(version, table, bufferSize, s, buf, addr)
         == Reception(SinkState(s.batches, s.statDgrams + 1, s.statFlowsets, s.cache), Finished)
  {
    VersionMismatch(version, table, buf, addr, s.cache, Raises);
  }

  /** The handler can only raise on the last record yielded: the generator is closed right after it. */
  lemma ReceiveRaisesLast(version: nat, table: FieldCatalog.FieldTypeTable, buf: seq<Bytes.byte>, addr: Exporter,
                          cache: Cache)
    ensures var records := ParseDatagram(version, table, buf, addr, cache, Raises).records;
      forall i :: 0 <= i < |records| - 1 ==> !Raises(records[i])
  {
    ParseStopsAtRaise(version, table, buf, addr, cache, Raises);
  }

  /** PgNelStoreProtocol: one NetFlow v9 parser, the row buffer, the counters, and the batches handed over. */
  class PgNelStoreProtocol {
    const parser: Parser
    const bufferSize: nat
    var buffer: seq<Row>
    /** The batches passed to workers_pool.addRequest, in order; the pool itself is not part of this model. */
    var requests: seq<seq<Row>>
    var statDgrams: nat
    var statFlowsets: nat

    /** __init__(dsn, workers, buffer_size): a version 9 parser with an empty cache, an empty buffer, zero counters. */
    constructor(bufferSize: nat)
      ensures this.bufferSize == bufferSize && parser.version == 9
      ensures fresh(parser) && fresh(parser.matcher)
      ensures parser.matcher.fields.entries == FieldCatalog.Table && parser.matcher.fields.Valid()
      ensures State() == SinkState(Batches([], []), 0, 0, map[])
      ensures Bounded(bufferSize, State().batches)
    {
      parser := new Parser(9);
      this.bufferSize := bufferSize;
      buffer := [];
      requests := [];
      statDgrams := 0;
      statFlowsets := 0;
    }

    function State(): SinkState
      reads this, parser.matcher
    {
      SinkState(Batches(buffer, requests), statDgrams, statFlowsets, parser.matcher.dyn)
    }

    /** _handle_flow_set: append the row of a kept record, and submit the buffer once it reaches buffer_size. */
    method HandleFlowSet(rec: Record<nat>) returns (err: Option<Error>)
      modifies this
      ensures statDgrams == old(statDgrams) && statFlowsets == old(statFlowsets)
      ensures match Handle(rec)
        case Err(e) => err == Some(e) && buffer == old(buffer) && requests == old(requests)
        case Ok(None) => err == None && buffer == old(buffer) && requests == old(requests)
        case Ok(Some(row)) => err == None && Batches(buffer, requests) == Append(bufferSize, old(Batches(buffer, requests)), row)
    {
      var kept := Handle(rec);
      if kept.Err? {
        return Some(kept.error);
      }
      if kept.value.Some? {
        buffer := buffer + [kept.value.value];
        if |buffer| >= bufferSize {
          requests := requests + [buffer];
          buffer := [];
        }
      }
      err := None;
    }

    /**
     * The loop of datagram_received over what the parser yielded: one more flow set counted per record, then
     * the record handled; the first exception ends it.
     */
    method HandleRecords(records: seq<Record<nat>>) returns (handled: nat, err: Option<Error>)
      modifies this
      ensures handled <= |records| && statFlowsets == old(statFlowsets) + handled && statDgrams == old(statDgrams)
      ensures err == Retain(records[..handled]).error
      ensures err.None? ==> handled == |records|
      ensures err.Some? ==> handled >= 1 && Raises(records[handled - 1])
      ensures Batches(buffer, requests) == AppendAll(bufferSize, old(Batches(buffer, requests)), Retain(records[..handled]).rows)
    {
      ghost var before := Batches(buffer, requests);
      handled := 0;
      while handled < |records|
        invariant handled <= |records| && statDgrams == old(statDgrams)
        invariant statFlowsets == old(statFlowsets) + handled
        invariant Retain(records[..handled]).error.None?
        invariant Batches(buffer, requests) == AppendAll(bufferSize, before, Retain(records[..handled]).rows)
      {
        statFlowsets := statFlowsets + 1;
        ghost var rows := Retain(records[..handled]).rows;
        RetainNext(records, handled);
        err := HandleFlowSet(records[handled]);
        if Handle(records[handled]).Ok? && Handle(records[handled]).value.Some? {
          AppendAllNext(bufferSize, before, rows, Handle(records[handled]).value.value);
        }
        handled := handled + 1;
        if err.Some? {
          return;
        }
      }
      err := None;
    }

    /** datagram_received(buffer, addr): count the datagram, then handle every record the parser yields. */
    method DatagramReceived(buf: seq<Bytes.byte>, addr: Exporter) returns (status: Status)
      modifies this, parser.matcher
      ensures Reception(State(), status) == Receive(parser.version, parser.matcher.fields, bufferSize, old(State()), buf, addr)
      ensures parser.matcher.statics == old(parser.matcher.statics)
    {
      ghost var s := State();
      statDgrams := statDgrams + 1;
      var header, records, parsed := parser.Parse(buf, addr, Raises);
      var handled, err := HandleRecords(records);
      ReceiveRaisesLast(parser.version, parser.matcher.fields, buf, addr, s.cache);
      HandledLast(records, handled, err);
      ReceivedOf(bufferSize, s, ParseResult(header, records, parser.matcher.dyn, parsed), err, Batches(buffer, requests));
      status := if err.Some? then Failed(err.value) else parsed;
    }

    /** report_stats(seconds): the two counts and the buffer length it logs; both counters start again from 0. */
    method ReportStats(seconds: nat) returns (flowsets: nat, dgrams: nat, buffered: nat)
      modifies this
      ensures flowsets == old(statFlowsets) && dgrams == old(statDgrams) && buffered == |buffer|
      ensures statDgrams == 0 && statFlowsets == 0
      ensures buffer == old(buffer) && requests == old(requests)
    {
      flowsets, dgrams := statFlowsets, statDgrams;
      statDgrams := 0;
      statFlowsets := 0;
      buffered := |buffer|;
    }
  }

  /** MultiProtocol: the datagram endpoint's protocol, which passes each datagram on to its sinks. */
  class MultiProtocol {
    const protocols: seq<PgNelStoreProtocol>

    constructor(protocols: seq<PgNelStoreProtocol>)
      ensures this.protocols == protocols
    {
      this.protocols := protocols;
    }

    /** No two sinks share an object, so handing a datagram to one leaves the others alone. */
    ghost predicate Separate()
    {
      forall i, j :: 0 <= i < j < |protocols| ==>
        protocols[i] != protocols[j] && protocols[i].parser.matcher != protocols[j].parser.matcher
    }

    /**
     * datagram_received(buffer, addr): the same datagram to every sink in list order. Nothing isolates one sink
     * from another: the first sink that raises (or never returns) keeps the datagram from every later one.
     */
    method DatagramReceived(buf: seq<Bytes.byte>, addr: Exporter) returns (reached: nat, status: Status)
      requires Separate()
      modifies protocols, set p | p in protocols :: p.parser.matcher
      ensures reached <= |protocols|
      ensures status == Finished ==> reached == |protocols|
      ensures reached < |protocols| ==> status != Finished
      ensures forall i :: 0 <= i < reached ==>
        Took(protocols[i], old(protocols[i].State()), if i == reached - 1 then status else Finished, buf, addr)
      ensures forall i :: reached <= i < |protocols| ==> protocols[i].State() == old(protocols[i].State())
    {
      reached, status := 0, Finished;
      while reached < |protocols|
        invariant reached <= |protocols| && status == Finished
        invariant forall i :: 0 <= i < reached ==> Took(protocols[i], old(protocols[i].State()), Finished, buf, addr)
        invariant forall i :: reached <= i < |protocols| ==> protocols[i].State() == old(protocols[i].State())
      {
        var proto := protocols[reached];
        label Before:
        status := proto.DatagramReceived(buf, addr);
        forall i | 0 <= i < |protocols| && i != reached
          ensures protocols[i].State() == old@Before(protocols[i].State())
        {
          assert protocols[i] != proto && protocols[i].parser.matcher != proto.parser.matcher;
        }
        reached := reached + 1;
        if status != Finished {
          return;
        }
      }
    }
  }

  /** Sink p took the datagram: its state and the call's end are what Receive gives for the state before. */
  ghost predicate Took(p: PgNelStoreProtocol, before: SinkState, status: Status, buf: seq<Bytes.byte>, addr: Exporter)
    reads p, p.parser.matcher
  {
    Reception(p.State(), status) == Receive(p.parser.version, p.parser.matcher.fields, p.bufferSize, before, buf, addr)
  }

  // ---------------------------------------------------------------------
  // StorePgThreadPool.Worker.run: the text handed to copy_from.

  /** str() of each column, joined with tabs. */
  function RowText(row: Row): string
  {
    Join(RowColumns(row), '\t')
  }

  function RowColumns(row: Row): (cols: seq<string>)
    ensures |cols| == 7
  {
    [Decimal(row.eventTime), AddressText(row.srcAddr), AddressText(row.dstAddr), Decimal(row.dstPort),
     AddressText(row.xlateSrcAddr), Decimal(row.xlateSrcPort), Decimal(row.protocol)]
  }

  /** '\n'.join of the row texts: one line per row, with no newline after the last. */
  function BatchText(rows: seq<Row>): string
  {
    Join(Lines(rows), '\n')
  }

  function Lines(rows: seq<Row>): (lines: seq<string>)
    ensures |lines| == |rows| && forall i :: 0 <= i < |rows| ==> lines[i] == RowText(rows[i])
  {
    seq(|rows|, i requires 0 <= i < |rows| => RowText(rows[i]))
  }

  lemma ColumnsPlain(row: Row, i: nat)
    requires i < 7
    ensures '\t' !in RowColumns(row)[i] && '\n' !in RowColumns(row)[i]
  {
    var cols := RowColumns(row);
    if i in {0, 3, 5, 6} {
      DigitsAvoid(cols[i], '\t');
      DigitsAvoid(cols[i], '\n');
    } else {
      AddressTextPlain(if i == 1 then row.srcAddr else if i == 2 then row.dstAddr else row.xlateSrcAddr);
    }
  }

  /** A row's text splits on tabs back into its seven columns, holds no newline and is never empty. */
  lemma RowTextColumns(row: Row)
    ensures Split(RowText(row), '\t') == RowColumns(row)
    ensures '\n' !in RowText(row) && RowText(row) != []
  {
    var cols := RowColumns(row);
    forall i | 0 <= i < 7 ensures '\t' !in cols[i] && '\n' !in cols[i] {
      ColumnsPlain(row, i);
    }
    SplitJoin(cols, '\t');
    JoinAvoids(cols, '\t', '\n');
    assert Join(cols, '\t') == cols[0] + ['\t'] + Join(cols[1..], '\t');
  }

  /**
   * The batch text reads back row by row: split on newlines it gives one line per row, each line split on
   * tabs gives that row's columns, and the text does not end with a newline.
   */
  lemma BatchTextRows(rows: seq<Row>)
    requires rows != []
    ensures Split(BatchText(rows), '\n') == Lines(rows)
    ensures forall i :: 0 <= i < |rows| ==> Split(Lines(rows)[i], '\t') == RowColumns(rows[i])
    ensures BatchText(rows)[|BatchText(rows)| - 1] != '\n'
  {
    var lines := Lines(rows);
    forall i | 0 <= i < |rows| ensures '\n' !in lines[i] && lines[i] != [] && Split(lines[i], '\t') == RowColumns(rows[i]) {
      RowTextColumns(rows[i]);
    }
    SplitJoin(lines, '\n');
    JoinLastChar(lines, '\n');
  }
}
