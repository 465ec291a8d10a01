/**
 * util.structuple: a record type whose constructor unpacks a fixed-layout struct format
 * from a buffer at an offset and binds the values to field names by position,
 * optionally passing named values through converters.
 */
module Structuple {
  import opened Wrappers
  import opened Bytes
  import Ip

  /** One struct format item under a standard-size byte order ('!', '<', '>'). */
  datatype Code =
    | Uint(width: nat)     // 'B', 'H', 'I'/'L', 'Q': one unsigned integer of 1, 2, 4 or 8 bytes
    | ByteRun(count: nat)  // 'nB': n separate unsigned bytes
    | Pad(count: nat)      // 'nx': n skipped bytes

  datatype Layout = Layout(order: Order, codes: seq<Code>)

  predicate ValidCode(c: Code)
  {
    c.Uint? ==> c.width in {1, 2, 4, 8}
  }

  function Width(c: Code): nat
  {
    match c
    case Uint(w) => w
    case ByteRun(n) => n
    case Pad(n) => n
  }

  /** Number of values one item unpacks to. */
  function Arity(c: Code): nat
  {
    match c
    case Uint(_) => 1
    case ByteRun(n) => n
    case Pad(_) => 0
  }

  /** struct.calcsize: standard sizes never insert padding, so the size is the sum of the item widths. */
  function Size(codes: seq<Code>): nat
  {
    if codes == [] then 0 else Width(codes[0]) + Size(codes[1..])
  }

  function Count(codes: seq<Code>): nat
  {
    if codes == [] then 0 else Arity(codes[0]) + Count(codes[1..])
  }

  /** The values one item unpacks from the start of its window. */
  function ItemValues(order: Order, c: Code, win: seq<byte>): (vs: seq<nat>)
    requires Width(c) <= |win|
    ensures |vs| == Arity(c)
  {
    match c
    case Uint(w) => [Unsigned(order, win[..w])]
    case ByteRun(n) => win[..n]
    case Pad(_) => []
  }

  /** The values a window of exactly Size bytes unpacks to: each item reads the bytes after those of the items before it. */
  function Values(order: Order, codes: seq<Code>, win: seq<byte>): (vs: seq<nat>)
    requires |win| == Size(codes)
    ensures |vs| == Count(codes)
  {
    if codes == [] then []
    else ItemValues(order, codes[0], win) + Values(order, codes[1..], win[Width(codes[0])..])
  }

  /** struct.Struct(format).unpack_from(buf, offset): fails unless the whole layout lies inside the buffer. */
  function Unpack(layout: Layout, buf: seq<byte>, offset: nat): (r: Result<seq<nat>>)
    ensures r.Ok? <==> offset + Size(layout.codes) <= |buf|
    ensures r.Err? ==> r.error == StructError
    ensures r.Ok? ==> |r.value| == Count(layout.codes)
  {
    if offset + Size(layout.codes) <= |buf| then Ok(Values(layout.order, layout.codes, buf[offset..offset + Size(layout.codes)]))
    else Err(StructError)
  }

  /** Decoding reads exactly the Size bytes starting at the offset and nothing else. */
  lemma UnpackWindow(layout: Layout, buf: seq<byte>, offset: nat)
    requires offset + Size(layout.codes) <= |buf|
    ensures Unpack(layout, buf, offset) == Unpack(layout, buf[offset..offset + Size(layout.codes)], 0)
  {
    var s := Size(layout.codes);
    assert buf[offset..offset + s] == buf[offset..offset + s][0..s];
  }

  // ---------------------------------------------------------------------
  // The inverse of Unpack: struct.pack for values that fit their items.

  predicate FitsItem(c: Code, vs: seq<nat>)
  {
    && ValidCode(c)
    && |vs| == Arity(c)
    && match c
       case Uint(w) => vs[0] < Pow256(w)
       case ByteRun(n) => forall i :: 0 <= i < n ==> vs[i] < 256
       case Pad(_) => true
  }

  predicate Fits(codes: seq<Code>, vs: seq<nat>)
  {
    if codes == [] then vs == []
    else
      var k := Arity(codes[0]);
      k <= |vs| && FitsItem(codes[0], vs[..k]) && Fits(codes[1..], vs[k..])
  }

  function PackItem(order: Order, c: Code, vs: seq<nat>): (bs: seq<byte>)
    requires FitsItem(c, vs)
    ensures |bs| == Width(c)
  {
    match c
    case Uint(w) => Encode(order, vs[0], w)
    case ByteRun(n) => seq(n, i requires 0 <= i < n => vs[i] as byte)
    case Pad(n) => seq(n, i => 0)
  }

  function Pack(order: Order, codes: seq<Code>, vs: seq<nat>): (bs: seq<byte>)
    requires Fits(codes, vs)
    ensures |bs| == Size(codes)
  {
    if codes == [] then []
    else
      var k := Arity(codes[0]);
      PackItem(order, codes[0], vs[..k]) + Pack(order, codes[1..], vs[k..])
  }

  /** Unpacking what was packed gives the values back. */
  lemma {:induction false} UnpackPack(layout: Layout, vs: seq<nat>)
    requires Fits(layout.codes, vs)
    ensures Unpack(layout, Pack(layout.order, layout.codes, vs), 0) == Ok(vs)
  {
    var bs := Pack(layout.order, layout.codes, vs);
    assert bs[0..|bs|] == bs;
    ValuesPack(layout.order, layout.codes, vs);
  }

  lemma {:induction false} ValuesPack(order: Order, codes: seq<Code>, vs: seq<nat>)
    requires Fits(codes, vs)
    ensures Values(order, codes, Pack(order, codes, vs)) == vs
  {
    if codes != [] {
      var c, rest, k := codes[0], codes[1..], Arity(codes[0]);
      PackCons(order, codes, vs);
      var head := PackItem(order, c, vs[..k]);
      var tail := Pack(order, rest, vs[k..]);
      SplitConcat(head, tail);
      ItemValuesPack(order, c, vs[..k], head + tail);
      ValuesPack(order, rest, vs[k..]);
      TakeDrop(vs, k);
    }
  }

  lemma PackCons(order: Order, codes: seq<Code>, vs: seq<nat>)
    requires Fits(codes, vs) && codes != []
    ensures var k := Arity(codes[0]);
      && k <= |vs| && FitsItem(codes[0], vs[..k]) && Fits(codes[1..], vs[k..])
      && Pack(order, codes, vs) == PackItem(order, codes[0], vs[..k]) + Pack(order, codes[1..], vs[k..])
  {
  }

  lemma ItemValuesPack(order: Order, c: Code, vs: seq<nat>, bs: seq<byte>)
    requires FitsItem(c, vs)
    requires Width(c) <= |bs| && bs[..Width(c)] == PackItem(order, c, vs)
    ensures ItemValues(order, c, bs) == vs
  {
    match c
    case Uint(w) =>
      assert bs[..w] == Encode(order, vs[0], w);
      UnsignedOfEncode(order, vs[0], w);
    case ByteRun(n) =>
    case Pad(_) =>
  }

  // ---------------------------------------------------------------------
  // The record type: collections.namedtuple over the unpacked values.

  /** A record type as structuple returns it: field names bound by position to the values of a layout. */
  datatype Struct = Struct(names: seq<string>, layout: Layout)

  /** Record.size */
  function StructSize(st: Struct): nat { Size(st.layout.codes) }

  predicate IsLetter(ch: char) { 'a' <= ch <= 'z' || 'A' <= ch <= 'Z' }

  /** The reserved words of Python 3, which namedtuple refuses as field names. */
  const Keywords: set<string> := {
    "False", "None", "True", "and", "as", "assert", "async", "await", "break", "class", "continue", "def",
    "del", "elif", "else", "except", "finally", "for", "from", "global", "if", "import", "in", "is",
    "lambda", "nonlocal", "not", "or", "pass", "raise", "return", "try", "while", "with", "yield"}

  /** Keywords, looked up by first letter so that most names are told apart by that letter alone. */
  predicate IsKeyword(name: string)
  {
    2 <= |name| &&
    match name[0]
    case 'F' => name == "False"
    case 'N' => name == "None"
    case 'T' => name == "True"
    case 'a' => name in {"and", "as", "assert", "async", "await"}
    case 'b' => name == "break"
    case 'c' => name in {"class", "continue"}
    case 'd' => name in {"def", "del"}
    case 'e' => name in {"elif", "else", "except"}
    case 'f' => name in {"finally", "for", "from"}
    case 'g' => name == "global"
    case 'i' => name in {"if", "import", "in", "is"}
    case 'l' => name == "lambda"
    case 'n' => name in {"nonlocal", "not"}
    case 'o' => name == "or"
    case 'p' => name == "pass"
    case 'r' => name in {"raise", "return"}
    case 't' => name == "try"
    case 'w' => name in {"while", "with"}
    case 'y' => name == "yield"
    case _ => false
  }

  /** The lookup by first letter finds exactly the keywords. */
  lemma IsKeywordKeywords(name: string)
    ensures IsKeyword(name) <==> name in Keywords
  {
  }

  /** A name namedtuple accepts for a field: an identifier that is no keyword and does not start with an underscore. */
  predicate ValidFieldName(name: string)
  {
    && 1 <= |name| && IsLetter(name[0])
    && (forall i :: 0 <= i < |name| ==> IsLetter(name[i]) || '0' <= name[i] <= '9' || name[i] == '_')
    && !IsKeyword(name)
  }

  /** Every name of the list is one namedtuple accepts. */
  predicate ValidFieldNames(names: seq<string>)
  {
    forall i :: 0 <= i < |names| ==> ValidFieldName(names[i])
  }

  predicate DistinctNames(names: seq<string>)
  {
    forall i, j :: 0 <= i < j < |names| ==> names[i] != names[j]
  }

  /**
   * structuple(typename, format, field_names): namedtuple first rejects a field name that is not an identifier,
   * then a repeated field name (both ValueError); the struct format itself is always accepted.
   */
  function Make(names: seq<string>, layout: Layout): (r: Result<Struct>)
    ensures r.Ok? <==> ValidFieldNames(names) && DistinctNames(names)
    ensures r.Ok? ==> r.value == Struct(names, layout)
    ensures r.Err? ==> r.error == InvalidFieldName || r.error == DuplicateFieldName
  {
    if !ValidFieldNames(names) then Err(InvalidFieldName)
    else if !DistinctNames(names) then Err(DuplicateFieldName)
    else Ok(Struct(names, layout))
  }

  /** An instance: the names of its type and the tuple of values, whose length namedtuple never checks. */
  datatype Record<V> = Record(names: seq<string>, values: seq<V>)

  /** Record(buffer, offset) without converters: the unpacked values in format order. */
  function Decode(st: Struct, buf: seq<byte>, offset: nat): (r: Result<Record<nat>>)
    ensures r.Ok? <==> offset + StructSize(st) <= |buf|
    ensures r.Ok? ==> r.value.names == st.names && |r.value.values| == Count(st.layout.codes)
  {
    match Unpack(st.layout, buf, offset)
    case Err(e) => Err(e)
    case Ok(vs) => Ok(Record(st.names, vs))
  }

  function IndexOf(names: seq<string>, name: string): (i: nat)
    requires name in names
    ensures i < |names| && names[i] == name
    ensures forall j :: 0 <= j < i ==> names[j] != name
  {
    if names[0] == name then 0 else 1 + IndexOf(names[1..], name)
  }

  /** getattr(record, name): the value at the name's position; IndexError when that position is past the values. */
  function Get<V>(rec: Record<V>, name: string): (r: Result<V>)
  {
    if name !in rec.names then Err(NoSuchAttribute)
    else
      var i := IndexOf(rec.names, name);
      if i < |rec.values| then Ok(rec.values[i]) else Err(IndexOutOfRange)
  }

  /**
   * The attributes every record type has besides its fields: size and format from structuple, count and index
   * from tuple, and namedtuple's own members.
   */
  const TypeAttributes: set<string> := {"size", "format", "count", "index", "_fields", "_field_defaults", "_make", "_replace", "_asdict"}

  /**
   * hasattr(record, name): for a field, True when its value exists and the IndexError of getattr otherwise,
   * which hasattr does not catch; for any other name, True exactly for the type's own attributes.
   */
  function Has<V>(rec: Record<V>, name: string): (r: Result<bool>)
  {
    if name !in rec.names then Ok(name in TypeAttributes)
    else if IndexOf(rec.names, name) < |rec.values| then Ok(true)
    else Err(IndexOutOfRange)
  }

  /**
   * hasattr succeeds with True exactly when getattr reads a field value or the name is one of the type's own
   * attributes, and with False exactly when the name is neither a field nor such an attribute.
   */
  lemma HasGet<V>(rec: Record<V>, name: string)
    ensures Has(rec, name) == Ok(true) <==> Get(rec, name).Ok? || (name !in rec.names && name in TypeAttributes)
    ensures Has(rec, name) == Ok(false) <==> Get(rec, name) == Err(NoSuchAttribute) && name !in TypeAttributes
    ensures Has(rec, name).Err? <==> Get(rec, name) == Err(IndexOutOfRange)
  {
  }

  /** Without converters, name i reads value i whenever value i exists, whatever the value count. */
  lemma GetByPosition(st: Struct, buf: seq<byte>, offset: nat, i: nat)
    requires DistinctNames(st.names) && i < |st.names|
    requires Decode(st, buf, offset).Ok?
    ensures var rec := Decode(st, buf, offset).value;
      Get(rec, st.names[i]) == if i < |rec.values| then Ok(rec.values[i]) else Err(IndexOutOfRange)
  {
    var rec := Decode(st, buf, offset).value;
    var j := IndexOf(rec.names, st.names[i]);
    assert j == i;
  }

  // ---------------------------------------------------------------------
  // Converters: Record(buffer, offset) when structuple was given {'attr': convert}.

  datatype Field<V> = Raw(n: nat) | Converted(v: V)

  /**
   * The field entries of the replacement dict built in converter order; a failing getattr or converter raises.
   * A converter keyed by one of the type's own attributes passes hasattr too; UnexpectedKeys records it.
   */
  function Replacements<V>(conv: seq<(string, nat -> Result<V>)>, names: seq<string>, vs: seq<nat>): (r: Result<map<string, V>>)
    ensures r.Ok? ==> forall k :: k in r.value ==> k in names
  {
    if conv == [] then Ok(map[])
    else
      var (attr, convert) := conv[0];
      if attr !in names then Replacements(conv[1..], names, vs)
      else
        var i := IndexOf(names, attr);
        if i >= |vs| then Err(IndexOutOfRange)
        else match convert(vs[i])
          case Err(e) => Err(e)
          case Ok(v) =>
            match Replacements(conv[1..], names, vs)
            case Err(e) => Err(e)
            case Ok(m) => Ok(m[attr := v])
  }

  /** Some converter is keyed by an attribute of the type that is no field: _replace then refuses that key. */
  predicate UnexpectedKeys<V>(conv: seq<(string, nat -> Result<V>)>, names: seq<string>)
  {
    exists j :: 0 <= j < |conv| && conv[j].0 !in names && conv[j].0 in TypeAttributes
  }

  /**
   * The converters path: hasattr filters the converters to field names and the type's own attributes, _replace
   * rebuilds the tuple from the field names zipped with the values (dropping values past the last name), _make
   * rejects a shorter tuple, and then _replace rejects a key that is no field.
   */
  function DecodeConverted<V>(st: Struct, buf: seq<byte>, offset: nat, conv: seq<(string, nat -> Result<V>)>)
    : (r: Result<Record<Field<V>>>)
  {
    match Unpack(st.layout, buf, offset)
    case Err(e) => Err(e)
    case Ok(vs) =>
      if conv == [] then Ok(Record(st.names, seq(|vs|, i requires 0 <= i < |vs| => Raw(vs[i]))))
      else match Replacements(conv, st.names, vs)
        case Err(e) => Err(e)
        case Ok(m) =>
          if |vs| < |st.names| then Err(FieldCountMismatch)
          else if UnexpectedKeys(conv, st.names) then Err(UnexpectedFieldName)
          else Ok(Record(st.names, seq(|st.names|, i requires 0 <= i < |st.names| =>
                   if st.names[i] in m then Converted(m[st.names[i]]) else Raw(vs[i]))))
  }

  /** Converters touch only fields they name; every other field keeps its raw value. */
  lemma {:induction false} ConvertersOnlyNamed<V>(st: Struct, buf: seq<byte>, offset: nat,
                                                  conv: seq<(string, nat -> Result<V>)>, i: nat)
    requires DecodeConverted(st, buf, offset, conv).Ok?
    requires i < |st.names|
    requires forall j :: 0 <= j < |conv| ==> conv[j].0 != st.names[i]
    ensures var rec := DecodeConverted(st, buf, offset, conv).value;
      var vs := Unpack(st.layout, buf, offset).value;
      && (i < |rec.values| <==> i < |vs|)
      && (i < |rec.values| ==> rec.values[i] == Raw(vs[i]))
  {
    var vs := Unpack(st.layout, buf, offset).value;
    var rec := DecodeConverted(st, buf, offset, conv).value;
    if conv == [] {
      assert rec.values == seq(|vs|, j requires 0 <= j < |vs| => Raw(vs[j]));
    } else {
      var m := Replacements(conv, st.names, vs).value;
      ReplacementsKeys(conv, st.names, vs, st.names[i]);
      assert |vs| >= |st.names|;
      assert rec.values == seq(|st.names|, j requires 0 <= j < |st.names| =>
                   if st.names[j] in m then Converted(m[st.names[j]]) else Raw(vs[j]));
    }
  }

  lemma {:induction false} ReplacementsKeys<V>(conv: seq<(string, nat -> Result<V>)>, names: seq<string>, vs: seq<nat>, name: string)
    requires Replacements(conv, names, vs).Ok?
    requires forall j :: 0 <= j < |conv| ==> conv[j].0 != name
    ensures name !in Replacements(conv, names, vs).value
  {
    if conv != [] {
      ReplacementsKeys(conv[1..], names, vs, name);
    }
  }

  /**
   * A converter keyed by size, count or another attribute of the type that is no field makes the decode
   * raise, once every converter has run and the values cover the fields.
   */
  lemma TypeAttributeConverterRaises<V>(st: Struct, buf: seq<byte>, offset: nat, conv: seq<(string, nat -> Result<V>)>, j: nat)
    requires Unpack(st.layout, buf, offset).Ok? && |Unpack(st.layout, buf, offset).value| >= |st.names|
    requires Replacements(conv, st.names, Unpack(st.layout, buf, offset).value).Ok?
    requires j < |conv| && conv[j].0 !in st.names && conv[j].0 in TypeAttributes
    ensures DecodeConverted(st, buf, offset, conv) == Err(UnexpectedFieldName)
  {
  }

  /** namedtuple refuses a keyword as a field name, though it is an identifier. */
  lemma KeywordRejected(layout: Layout)
    ensures Make(["class", "port"], layout) == Err(InvalidFieldName)
    ensures Make(["klass", "port"], layout).Ok?
  {
    var bad := ["class", "port"];
    assert !ValidFieldName(bad[0]);
    var good := ["klass", "port"];
    assert ValidFieldName(good[0]) && ValidFieldName(good[1]) && good[0][0] != good[1][0];
  }

  /** '!LH' over b'abcd12' unpacks to 0x61626364 and 12594. */
  lemma DocExampleUnpack(buf: seq<byte>)
    requires buf == [97, 98, 99, 100, 49, 50]
    ensures Unpack(Layout(Big, [Uint(4), Uint(2)]), buf, 0) == Ok([0x61626364, 12594])
  {
    BigEndian4(buf[0..4]);
    BigEndian2(buf[4..6]);
    assert BigEndian(buf[0..4]) == 0x61626364;
    assert BigEndian(buf[4..6]) == 12594;
    var codes := [Uint(4), Uint(2)];
    assert Size(codes) == 6 && codes[1..][1..] == [];
    assert buf[0..6] == buf && buf[..4] == buf[0..4] && buf[4..][..2] == buf[4..6];
    assert Values(Big, codes[1..], buf[4..]) == [12594];
    assert Values(Big, codes, buf) == [0x61626364, 12594];
  }

  /** addr and port are identifiers, and different ones. */
  lemma DocExampleMake(names: seq<string>, layout: Layout)
    requires names == ["addr", "port"]
    ensures Make(names, layout) == Ok(Struct(names, layout))
  {
    assert ValidFieldName(names[0]) && ValidFieldName(names[1]);
    assert names[0][0] != names[1][0];
  }

  /** ip_address converts the addr value of that example to 97.98.99.100; port stays as it is. */
  lemma DocExampleReplacements(names: seq<string>, vs: seq<nat>)
    requires names == ["addr", "port"] && vs == [0x61626364, 12594]
    ensures Replacements([("addr", Ip.FromInt)], names, vs) == Ok(map["addr" := Ip.V4(97, 98, 99, 100)])
  {
    assert Ip.FromInt(0x61626364) == Ok(Ip.V4(97, 98, 99, 100));
    assert IndexOf(names, "addr") == 0;
  }

  /** The example in structuple's documentation: '!LH' over b'abcd12' with ip_address on addr. */
  lemma DocExample()
    ensures var st := Make(["addr", "port"], Layout(Big, [Uint(4), Uint(2)]));
      && st.Ok?
      && DecodeConverted(st.value, [97, 98, 99, 100, 49, 50], 0, [("addr", Ip.FromInt)])
         == Ok(Record(["addr", "port"], [Converted(Ip.V4(97, 98, 99, 100)), Raw(12594)]))
  {
    var st := Struct(["addr", "port"], Layout(Big, [Uint(4), Uint(2)]));
    var buf: seq<byte> := [97, 98, 99, 100, 49, 50];
    var vs := [0x61626364, 12594];
    DocExampleMake(st.names, st.layout);
    DocExampleUnpack(buf);
    DocExampleReplacements(st.names, vs);
    var m := map["addr" := Ip.V4(97, 98, 99, 100)];
    var names := st.names;
    var fields := seq(|names|, i requires 0 <= i < |names| => if names[i] in m then Converted(m[names[i]]) else Raw(vs[i]));
    assert "port" !in m;
    assert fields == [Converted(Ip.V4(97, 98, 99, 100)), Raw(12594)];
    var conv: seq<(string, nat -> Result<Ip.Address>)> := [("addr", Ip.FromInt)];
    assert Unpack(st.layout, buf, 0) == Ok(vs) && Replacements(conv, names, vs) == Ok(m);
    var r := DecodeConverted(st, buf, 0, conv);
    assert r.Ok? && r.value.names == names && |r.value.values| == 2;
    assert r.value.values[0] == fields[0] && r.value.values[1] == fields[1];
    assert r.value.values == fields;
  }

}
