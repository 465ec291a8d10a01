/**
 * The libpcap capture-file reader: a 24-byte global header whose magic number picks the byte order, then
 * records of a 16-byte header (seconds, microseconds, captured length, original length) and the captured
 * bytes. The file is a byte string with a read cursor; reading past its end returns fewer bytes.
 */
module Pcap {
  import opened Wrappers
  import opened Bytes

  /** The magic numbers get_parser accepts, read little-endian from the first four bytes. */
  const LittleMagic: nat := 0xA1B2C3D4
  const SwappedMagic: nat := 0x4D3C2B1A

  const GlobalHeaderLen: nat := 24
  const PacketHeaderLen: nat := 16

  /**
   * file.read(n) on the bytes not yet read: n bytes, or all of them when fewer remain or n is negative.
   */
  function ReadAt(rest: seq<byte>, n: int): (chunk: seq<byte>)
    ensures |chunk| <= |rest| && chunk == rest[..|chunk|]
    ensures 0 <= n <= |rest| ==> |chunk| == n
    ensures n < 0 || n > |rest| ==> chunk == rest
  {
    if n < 0 || n > |rest| then rest else rest[..n]
  }

  /** The fields of the global header; byteorder stands for the '<' or '>' that pcap_check chose. */
  datatype GlobalHeader = GlobalHeader(byteorder: Order, versionMajor: nat, versionMinor: nat, timezone: nat,
                                       timestamp: nat, maxPackageLen: nat, linkType: nat)

  /** The byte order a magic number selects: 0xA1B2C3D4 is '<', 0x4D3C2B1A is '>', anything else none. */
  function MagicOrder(magic: nat): (o: Option<Order>)
    ensures o == Some(Little) <==> magic == LittleMagic
    ensures o == Some(Big) <==> magic == SwappedMagic
  {
    if magic == LittleMagic then Some(Little)
    else if magic == SwappedMagic then Some(Big)
    else None
  }

  /** struct.unpack(byteorder + '4xHHIIII', global_head): the magic skipped, two u16 and four u32 fields. */
  function HeaderFields(order: Order, gh: seq<byte>): Result<GlobalHeader>
  {
    if |gh| != GlobalHeaderLen then Err(StructError)
    else Ok(GlobalHeader(order, Unsigned(order, gh[4..6]), Unsigned(order, gh[6..8]), Unsigned(order, gh[8..12]),
                         Unsigned(order, gh[12..16]), Unsigned(order, gh[16..20]), Unsigned(order, gh[20..24])))
  }

  /** pcap_check on the bytes it assembled: empty is refused, the magic picks the order, then the fields. */
  function CheckHeader(gh: seq<byte>): Result<GlobalHeader>
  {
    if gh == [] then Err(UnsupportFileFormat)
    else if |gh| < 4 then Err(StructError)
    else match MagicOrder(LittleEndian(gh[0..4]))
      case None => Err(UnsupportFileFormat)
      case Some(order) => HeaderFields(order, gh)
  }

  /**
   * get_parser on the unread bytes rest: four bytes of magic, checked, then twenty more for pcap_check.
   */
  function Open(rest: seq<byte>): Result<GlobalHeader>
  {
    var head := ReadAt(rest, 4);
    if |head| < 4 then Err(NoDataInInputBuffer)
    else if MagicOrder(LittleEndian(head)).None? then Err(UnsupportFileFormat)
    else CheckHeader(head + ReadAt(rest[4..], GlobalHeaderLen - 4))
  }

  /** A record's timestamp in microseconds and its captured bytes. */
  datatype Frame = Frame(microSecond: nat, packet: seq<byte>)

  /**
   * What read_pcap_pac returns on the unread bytes, and the bytes it leaves unread: Ok(None) for the
   * (None, None) of a file at its end or of a truncated packet, Err for a partial record header.
   */
  datatype Pac = Pac(result: Result<Option<Frame>>, rest: seq<byte>)

  function PacketAt(order: Order, rest: seq<byte>): (p: Pac)
    ensures |p.rest| <= |rest| && p.rest == rest[|rest| - |p.rest|..]
    ensures p.result.Ok? && p.result.value.Some? ==> |rest| == PacketHeaderLen + |p.result.value.value.packet| + |p.rest|
  {
    var header := ReadAt(rest, PacketHeaderLen);
    if |header| == 0 then Pac(Ok(None), rest)
    else if |header| != PacketHeaderLen then Pac(Err(StructError), rest[|header|..])
    else
      var seconds := Unsigned(order, header[0..4]);
      var useconds := Unsigned(order, header[4..8]);
      var packetLen := Unsigned(order, header[8..12]);
      var after := rest[PacketHeaderLen..];
      var body := ReadAt(after, packetLen);
      if |body| < packetLen then Pac(Ok(None), after[|body|..])
      else Pac(Ok(Some(Frame(seconds * 1000000 + useconds, body))), after[|body|..])
  }

  /** One item read_packet yields: (link_type, micro_second, link_packet). */
  datatype PacketRecord = PacketRecord(linkType: nat, microSecond: nat, packet: seq<byte>)

  /** The items a generator yields before it returns, and the exception it raised, if any. */
  datatype Stream = Stream(packets: seq<PacketRecord>, error: Option<Error>)

  function PrependPacket(p: PacketRecord, s: Stream): Stream
  {
    Stream([p] + s.packets, s.error)
  }

  /** read_packet on the unread bytes: records until the end, a truncated record, an empty packet or a struct error. */
  function Packets(order: Order, linkType: nat, rest: seq<byte>): Stream
    decreases |rest|
  {
    var p := PacketAt(order, rest);
    match p.result
    case Err(e) => Stream([], Some(e))
    case Ok(None) => Stream([], None)
    case Ok(Some(f)) =>
      if |f.packet| == 0 then Stream([], None)
      else PrependPacket(PacketRecord(linkType, f.microSecond, f.packet), Packets(order, linkType, p.rest))
  }

  // ----- Properties of the header -----

  /** Which error get_parser raises, exactly: too short, unknown magic, then too short for the whole header. */
  lemma OpenOutcome(rest: seq<byte>)
    ensures Open(rest) == Err(NoDataInInputBuffer) <==> |rest| < 4
    ensures Open(rest) == Err(UnsupportFileFormat) <==> |rest| >= 4 && MagicOrder(LittleEndian(rest[..4])).None?
    ensures Open(rest) == Err(StructError)
        <==> |rest| >= 4 && MagicOrder(LittleEndian(rest[..4])).Some? && |rest| < GlobalHeaderLen
    ensures Open(rest).Ok? <==> |rest| >= GlobalHeaderLen && MagicOrder(LittleEndian(rest[..4])).Some?
  {
    if |rest| >= 4 {
      var gh := ReadAt(rest, 4) + ReadAt(rest[4..], GlobalHeaderLen - 4);
      assert gh[0..4] == rest[..4];
      assert |rest| >= GlobalHeaderLen <==> |gh| == GlobalHeaderLen;
    }
  }

  /** With 24 bytes left, get_parser and pcap_check together unpack exactly those 24 bytes. */
  lemma OpenWhole(rest: seq<byte>)
    requires GlobalHeaderLen <= |rest|
    ensures Open(rest) == match MagicOrder(LittleEndian(rest[..4]))
      case None => Err(UnsupportFileFormat)
      case Some(order) => HeaderFields(order, rest[..GlobalHeaderLen])
  {
    var gh := ReadAt(rest, 4) + ReadAt(rest[4..], GlobalHeaderLen - 4);
    assert gh == rest[..GlobalHeaderLen];
    assert gh[0..4] == rest[..4];
  }

  /** An accepted header: the magic fixes the order, and every field is read in that order at its offset. */
  lemma OpenFields(rest: seq<byte>)
    requires Open(rest).Ok?
    ensures GlobalHeaderLen <= |rest|
    ensures var h := Open(rest).value; var o := h.byteorder;
      && (o == Little <==> LittleEndian(rest[..4]) == LittleMagic)
      && (o == Big <==> LittleEndian(rest[..4]) == SwappedMagic)
      && h.versionMajor == Unsigned(o, rest[4..6]) && h.versionMinor == Unsigned(o, rest[6..8])
      && h.timezone == Unsigned(o, rest[8..12]) && h.timestamp == Unsigned(o, rest[12..16])
      && h.maxPackageLen == Unsigned(o, rest[16..20]) && h.linkType == Unsigned(o, rest[20..24])
  {
    OpenOutcome(rest);
    OpenWhole(rest);
    var gh := rest[..GlobalHeaderLen];
    assert gh[4..6] == rest[4..6] && gh[6..8] == rest[6..8] && gh[8..12] == rest[8..12];
    assert gh[12..16] == rest[12..16] && gh[16..20] == rest[16..20] && gh[20..24] == rest[20..24];
  }

  /**
   * A capture written big-endian starts with the bytes A1 B2 C3 D4, which read little-endian are 0xD4C3B2A1:
   * get_parser refuses it.
   */
  lemma BigEndianCaptureRejected(rest: seq<byte>)
    requires 4 <= |rest| && rest[0] == 0xA1 && rest[1] == 0xB2 && rest[2] == 0xC3 && rest[3] == 0xD4
    ensures Open(rest) == Err(UnsupportFileFormat)
  {
    LittleEndian4(rest[..4]);
    OpenOutcome(rest);
  }

  /** The big-endian order is chosen only for files starting 1A 2B 3C 4D. */
  lemma SwappedMagicBytes(rest: seq<byte>)
    requires Open(rest).Ok? && Open(rest).value.byteorder == Big
    ensures rest[..4] == [0x1A, 0x2B, 0x3C, 0x4D]
  {
    OpenFields(rest);
    SwappedMagicOf(rest[..4]);
  }

  lemma SwappedMagicOf(s: seq<byte>)
    requires |s| == 4 && LittleEndian(s) == SwappedMagic
    ensures s == [0x1A, 0x2B, 0x3C, 0x4D]
  {
    BytesOfLittleEndian(s);
    assert LittleEndianBytes(SwappedMagic, 4) == [0x1A, 0x2B, 0x3C, 0x4D];
  }

  /** A global header as a writer lays it out, with the magic bytes pcap_check looks for. */
  predicate HeaderFits(h: GlobalHeader)
  {
    && h.versionMajor < Pow256(2) && h.versionMinor < Pow256(2) && h.timezone < Pow256(4)
    && h.timestamp < Pow256(4) && h.maxPackageLen < Pow256(4) && h.linkType < Pow256(4)
  }

  function MagicFor(order: Order): (magic: nat)
    ensures MagicOrder(magic) == Some(order)
  {
    match order
    case Little => LittleMagic
    case Big => assert MagicOrder(SwappedMagic) == Some(Big); SwappedMagic
  }

  function HeaderBytes(h: GlobalHeader): (s: seq<byte>)
    requires HeaderFits(h)
    ensures |s| == GlobalHeaderLen
  {
    var o := h.byteorder;
    Encode(Little, MagicFor(o), 4) + Encode(o, h.versionMajor, 2) + Encode(o, h.versionMinor, 2)
      + Encode(o, h.timezone, 4) + Encode(o, h.timestamp, 4) + Encode(o, h.maxPackageLen, 4) + Encode(o, h.linkType, 4)
  }

  /** The fields of a written header unpack to the values written. */
  lemma HeaderFieldsOfBytes(h: GlobalHeader)
    requires HeaderFits(h)
    ensures LittleEndian(HeaderBytes(h)[0..4]) == MagicFor(h.byteorder)
    ensures HeaderFields(h.byteorder, HeaderBytes(h)) == Ok(h)
  {
    var o := h.byteorder;
    var s := HeaderBytes(h);
    assert s[0..4] == Encode(Little, MagicFor(o), 4);
    assert s[4..6] == Encode(o, h.versionMajor, 2);
    assert s[6..8] == Encode(o, h.versionMinor, 2);
    assert s[8..12] == Encode(o, h.timezone, 4);
    assert s[12..16] == Encode(o, h.timestamp, 4);
    assert s[16..20] == Encode(o, h.maxPackageLen, 4);
    assert s[20..24] == Encode(o, h.linkType, 4);
    UnsignedOfEncode(Little, MagicFor(o), 4);
    UnsignedOfEncode(o, h.versionMajor, 2);
    UnsignedOfEncode(o, h.versionMinor, 2);
    UnsignedOfEncode(o, h.timezone, 4);
    UnsignedOfEncode(o, h.timestamp, 4);
    UnsignedOfEncode(o, h.maxPackageLen, 4);
    UnsignedOfEncode(o, h.linkType, 4);
  }

  /** get_parser reads back every header it accepts: whatever follows, Open returns the header written. */
  lemma OpenHeaderBytes(h: GlobalHeader, rest: seq<byte>)
    requires HeaderFits(h) && GlobalHeaderLen <= |rest| && rest[..GlobalHeaderLen] == HeaderBytes(h)
    ensures Open(rest) == Ok(h)
  {
    HeaderFieldsOfBytes(h);
    assert rest[..GlobalHeaderLen][0..4] == rest[..4];
    OpenWhole(rest);
  }

  // ----- Properties of the records -----

  /** A record header cut short raises struct.error; a packet cut short ends the stream with nothing yielded. */
  lemma TruncatedRecord(order: Order, linkType: nat, rest: seq<byte>)
    ensures 0 < |rest| < PacketHeaderLen ==> Packets(order, linkType, rest) == Stream([], Some(StructError))
    ensures |rest| >= PacketHeaderLen && PacketHeaderLen + Unsigned(order, rest[8..12]) > |rest|
        ==> Packets(order, linkType, rest) == Stream([], None)
  {
    if |rest| >= PacketHeaderLen {
      HeaderLength(rest);
    }
  }

  /** A whole record header holds the captured length at its bytes 8 to 12. */
  lemma HeaderLength(rest: seq<byte>)
    requires PacketHeaderLen <= |rest|
    ensures ReadAt(rest, PacketHeaderLen)[8..12] == rest[8..12]
  {
  }

  /** A record whose captured length is 0 ends the stream as the end of the file does. */
  lemma EmptyPacketEnds(order: Order, linkType: nat, rest: seq<byte>)
    requires PacketHeaderLen <= |rest| && Unsigned(order, rest[8..12]) == 0
    ensures Packets(order, linkType, rest) == Stream([], None)
  {
    HeaderLength(rest);
  }

  /** Every item yielded carries the file's link type and a non-empty packet, at most one per 17 bytes left. */
  lemma {:induction false} PacketsShape(order: Order, linkType: nat, rest: seq<byte>)
    ensures var s := Packets(order, linkType, rest);
      && |s.packets| * (PacketHeaderLen + 1) <= |rest|
      && forall i :: 0 <= i < |s.packets| ==> s.packets[i].linkType == linkType && s.packets[i].packet != []
    decreases |rest|
  {
    var p := PacketAt(order, rest);
    if p.result.Ok? && p.result.value.Some? && |p.result.value.value.packet| != 0 {
      PacketsShape(order, linkType, p.rest);
    }
  }

  /** One record as a writer lays it out: the four u32 fields in the file's order, then the packet. */
  datatype Capture = Capture(seconds: nat, useconds: nat, packet: seq<byte>, rawLen: nat)

  predicate Fits(c: Capture)
  {
    c.seconds < Pow256(4) && c.useconds < Pow256(4) && 0 < |c.packet| < Pow256(4) && c.rawLen < Pow256(4)
  }

  function RecordBytes(order: Order, c: Capture): (s: seq<byte>)
    requires Fits(c)
    ensures |s| == PacketHeaderLen + |c.packet|
  {
    Encode(order, c.seconds, 4) + Encode(order, c.useconds, 4) + Encode(order, |c.packet|, 4)
      + Encode(order, c.rawLen, 4) + c.packet
  }

  function CaptureBytes(order: Order, cs: seq<Capture>): seq<byte>
    requires forall i :: 0 <= i < |cs| ==> Fits(cs[i])
  {
    if cs == [] then [] else RecordBytes(order, cs[0]) + CaptureBytes(order, cs[1..])
  }

  /** What read_packet should yield for the records cs. */
  function Expected(linkType: nat, cs: seq<Capture>): seq<PacketRecord>
  {
    if cs == [] then []
    else [PacketRecord(linkType, cs[0].seconds * 1000000 + cs[0].useconds, cs[0].packet)] + Expected(linkType, cs[1..])
  }

  /** read_pcap_pac reads one written record back, its timestamp in microseconds and its packet, and leaves what follows. */
  lemma PacketAtRecord(order: Order, c: Capture, after: seq<byte>)
    requires Fits(c)
    ensures PacketAt(order, RecordBytes(order, c) + after)
         == Pac(Ok(Some(Frame(c.seconds * 1000000 + c.useconds, c.packet))), after)
  {
    var s := RecordBytes(order, c);
    var rest := s + after;
    var header := ReadAt(rest, PacketHeaderLen);
    assert header == s[..PacketHeaderLen];
    assert header[0..4] == Encode(order, c.seconds, 4);
    assert header[4..8] == Encode(order, c.useconds, 4);
    assert header[8..12] == Encode(order, |c.packet|, 4);
    UnsignedOfEncode(order, c.seconds, 4);
    UnsignedOfEncode(order, c.useconds, 4);
    UnsignedOfEncode(order, |c.packet|, 4);
    var tail := rest[PacketHeaderLen..];
    assert tail == c.packet + after;
    assert ReadAt(tail, |c.packet|) == c.packet;
    assert tail[|c.packet|..] == after;
  }

  /** At the end of the file read_packet returns without yielding. */
  lemma PacketsAtEnd(order: Order, linkType: nat)
    ensures Packets(order, linkType, []) == Stream([], None)
  {
  }

  /** A record with a non-empty packet is yielded, and reading goes on after it. */
  lemma PacketsNext(order: Order, linkType: nat, rest: seq<byte>, microSecond: nat, packet: seq<byte>, after: seq<byte>)
    requires PacketAt(order, rest) == Pac(Ok(Some(Frame(microSecond, packet))), after) && packet != []
    ensures Packets(order, linkType, rest)
         == PrependPacket(PacketRecord(linkType, microSecond, packet), Packets(order, linkType, after))
  {
  }

  /** A written record is yielded, and reading goes on with the bytes after it. */
  lemma RecordThenPackets(order: Order, linkType: nat, c: Capture, after: seq<byte>, rest: seq<byte>)
    requires Fits(c) && rest == RecordBytes(order, c) + after
    ensures Packets(order, linkType, rest)
         == PrependPacket(PacketRecord(linkType, c.seconds * 1000000 + c.useconds, c.packet), Packets(order, linkType, after))
  {
    PacketAtRecord(order, c, after);
    PacketsNext(order, linkType, rest, c.seconds * 1000000 + c.useconds, c.packet, after);
  }

  /** read_packet yields exactly the records written, in order, and returns at the end of the file. */
  lemma {:induction false} PacketsRoundTrip(order: Order, linkType: nat, cs: seq<Capture>)
    requires forall i :: 0 <= i < |cs| ==> Fits(cs[i])
    ensures Packets(order, linkType, CaptureBytes(order, cs)) == Stream(Expected(linkType, cs), None)
  {
    if cs != [] {
      var c, after := cs[0], CaptureBytes(order, cs[1..]);
      var rec := PacketRecord(linkType, c.seconds * 1000000 + c.useconds, c.packet);
      RecordThenPackets(order, linkType, c, after, CaptureBytes(order, cs));
      PacketsRoundTrip(order, linkType, cs[1..]);
      ExpectedCons(linkType, cs);
      StreamCons(Packets(order, linkType, CaptureBytes(order, cs)), rec, Packets(order, linkType, after),
                 Expected(linkType, cs[1..]), Expected(linkType, cs));
    } else {
      assert CaptureBytes(order, cs) == [];
      PacketsAtEnd(order, linkType);
    }
  }

  lemma StreamCons(s: Stream, p: PacketRecord, rest: Stream, tail: seq<PacketRecord>, all: seq<PacketRecord>)
    requires s == PrependPacket(p, rest) && rest == Stream(tail, None) && all == [p] + tail
    ensures s == Stream(all, None)
  {
  }

  lemma ExpectedCons(linkType: nat, cs: seq<Capture>)
    requires cs != []
    ensures Expected(linkType, cs)
         == [PacketRecord(linkType, cs[0].seconds * 1000000 + cs[0].useconds, cs[0].packet)] + Expected(linkType, cs[1..])
  {
  }

  /**
   * A whole capture file as a writer produces it: get_parser accepts its header, and read_packet, on the bytes
   * after the header, yields every record in order and then returns.
   */
  lemma CaptureRoundTrip(h: GlobalHeader, cs: seq<Capture>)
    requires HeaderFits(h) && forall i :: 0 <= i < |cs| ==> Fits(cs[i])
    ensures var file := HeaderBytes(h) + CaptureBytes(h.byteorder, cs);
      && Open(file) == Ok(h)
      && Packets(h.byteorder, h.linkType, file[GlobalHeaderLen..]) == Stream(Expected(h.linkType, cs), None)
  {
    var file := HeaderBytes(h) + CaptureBytes(h.byteorder, cs);
    SplitConcat(HeaderBytes(h), CaptureBytes(h.byteorder, cs));
    OpenHeaderBytes(h, file);
    PacketsRoundTrip(h.byteorder, h.linkType, cs);
  }

  // ----- The file and the reader -----

  /** The input file: its bytes and the read cursor. */
  class InFile {
    const data: seq<byte>
    var pos: nat

    ghost predicate Valid()
      reads this
    {
      pos <= |data|
    }

    /** The bytes not read yet. */
    function Unread(): seq<byte>
      reads this
      requires Valid()
    {
      data[pos..]
    }

    constructor(data: seq<byte>)
      ensures this.data == data && pos == 0 && Valid()
    {
      this.data := data;
      pos := 0;
    }

    /** read(n): the next n bytes, fewer at the end of the file, all of the rest for a negative n. */
    method Read(n: int) returns (chunk: seq<byte>)
      requires Valid()
      modifies this
      ensures Valid() && chunk == ReadAt(old(Unread()), n) && pos == old(pos) + |chunk|
      ensures Unread() == old(Unread())[|chunk|..]
    {
      chunk := if n < 0 || pos + n > |data| then data[pos..] else data[pos..pos + n];
      pos := pos + |chunk|;
    }
  }

  /** PcapFile: the file, the byte order (None for the initial '@') and the global header's fields. */
  class PcapFile {
    const infile: InFile
    var byteorder: Option<Order>
    var linkType: Option<nat>
    var versionMajor: nat
    var versionMinor: nat
    var timezone: nat
    var timestamp: nat
    var maxPackageLen: nat

    /** The attribute assignments of __init__; get_parser then runs pcap_check on the new object. */
    constructor(infile: InFile)
      ensures this.infile == infile && byteorder == None && linkType == None
    {
      this.infile := infile;
      byteorder := None;
      linkType := None;
    }

    function Header(): GlobalHeader
      reads this
      requires byteorder.Some? && linkType.Some?
    {
      GlobalHeader(byteorder.value, versionMajor, versionMinor, timezone, timestamp, maxPackageLen, linkType.value)
    }

    /**
     * pcap_check(head): read the rest of the 24-byte header and set the fields from it. The byte order is set
     * as soon as the magic is recognised, even when unpacking the fields then fails.
     */
    method PcapCheck(head: seq<byte>) returns (err: Option<Error>)
      requires infile.Valid()
      modifies this, infile
      ensures infile.Valid()
      ensures var more := ReadAt(old(infile.Unread()), GlobalHeaderLen - |head|);
        var gh := head + more;
        && infile.Unread() == old(infile.Unread())[|more|..]
        && match CheckHeader(gh)
          case Ok(h) => err == None && byteorder.Some? && linkType.Some? && Header() == h
          case Err(e) =>
            && err == Some(e) && linkType == old(linkType)
            && versionMajor == old(versionMajor) && versionMinor == old(versionMinor)
            && timezone == old(timezone) && timestamp == old(timestamp) && maxPackageLen == old(maxPackageLen)
            && byteorder == (if |gh| >= 4 && MagicOrder(LittleEndian(gh[0..4])).Some?
                             then MagicOrder(LittleEndian(gh[0..4])) else old(byteorder))
    {
      var more := infile.Read(GlobalHeaderLen - |head|);
      var gh := head + more;
      if gh == [] {
        return Some(UnsupportFileFormat);
      }
      if |gh| < 4 {
        return Some(StructError);
      }
      var order := MagicOrder(LittleEndian(gh[0..4]));
      if order.None? {
        return Some(UnsupportFileFormat);
      }
      byteorder := order;
      if |gh| != GlobalHeaderLen {
        return Some(StructError);
      }
      var o := order.value;
      versionMajor, versionMinor := Unsigned(o, gh[4..6]), Unsigned(o, gh[6..8]);
      timezone, timestamp := Unsigned(o, gh[8..12]), Unsigned(o, gh[12..16]);
      maxPackageLen, linkType := Unsigned(o, gh[16..20]), Some(Unsigned(o, gh[20..24]));
      err := None;
    }

    /** read_pcap_pac: one record header, then the packet it announces. */
    method ReadPcapPac() returns (r: Result<Option<Frame>>)
      requires infile.Valid() && byteorder.Some?
      modifies infile
      ensures infile.Valid()
      ensures Pac(r, infile.Unread()) == PacketAt(byteorder.value, old(infile.Unread()))
    {
      var header := infile.Read(PacketHeaderLen);
      if |header| == 0 {
        return Ok(None);
      }
      if |header| != PacketHeaderLen {
        return Err(StructError);
      }
      var o := byteorder.value;
      var seconds, useconds := Unsigned(o, header[0..4]), Unsigned(o, header[4..8]);
      var packetLen := Unsigned(o, header[8..12]);
      var microSecond := seconds * 1000000 + useconds;
      var linkPacket := infile.Read(packetLen);
      if |linkPacket| < packetLen {
        return Ok(None);
      }
      r := Ok(Some(Frame(microSecond, linkPacket)));
    }

    /** read_packet: yield (link_type, micro_second, link_packet) while the packet read is non-empty. */
    method ReadPacket() returns (packets: seq<PacketRecord>, err: Option<Error>)
      requires infile.Valid() && byteorder.Some? && linkType.Some?
      modifies infile
      ensures infile.Valid()
      ensures Stream(packets, err) == Packets(byteorder.value, linkType.value, old(infile.Unread()))
    {
      ghost var start := Packets(byteorder.value, linkType.value, infile.Unread());
      packets := [];
      while true
        invariant infile.Valid()
        invariant var rest := Packets(byteorder.value, linkType.value, infile.Unread());
          start == Stream(packets + rest.packets, rest.error)
        decreases |infile.Unread()|
      {
        ghost var before := infile.Unread();
        var r := ReadPcapPac();
        if r.Err? {
          return packets, Some(r.error);
        }
        if r.value.None? || |r.value.value.packet| == 0 {
          assert packets + [] == packets;
          return packets, None;
        }
        var item := PacketRecord(linkType.value, r.value.value.microSecond, r.value.value.packet);
        assert packets + [item] + Packets(byteorder.value, linkType.value, infile.Unread()).packets
            == packets + Packets(byteorder.value, linkType.value, before).packets;
        packets := packets + [item];
      }
    }
  }

  /** get_parser(infile): check the magic of the first four bytes, then build the PcapFile and check its header. */
  method GetParser(infile: InFile) returns (r: Result<PcapFile>)
    requires infile.Valid()
    modifies infile
    ensures infile.Valid()
    ensures match r
      case Ok(p) =>
        && fresh(p) && p.infile == infile && p.byteorder.Some? && p.linkType.Some?
        && Open(old(infile.Unread())) == Ok(p.Header())
        && infile.Unread() == old(infile.Unread())[GlobalHeaderLen..]
      case Err(e) => Open(old(infile.Unread())) == Err(e)
  {
    var head := infile.Read(4);
    if |head| < 4 {
      return Err(NoDataInInputBuffer);
    }
    if MagicOrder(LittleEndian(head)).None? {
      return Err(UnsupportFileFormat);
    }
    var p := new PcapFile(infile);
    var err := p.PcapCheck(head);
    if err.Some? {
      return Err(err.value);
    }
    r := Ok(p);
  }
}
