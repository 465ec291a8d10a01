/** ipaddress.ip_address applied to an int, and str() of the address it returns. */
module Ip {
  import opened Wrappers
  import opened Text

  const V4Limit: nat := 0x1_0000_0000
  const V6Limit: nat := 0x1_0000_0000_0000_0000_0000_0000_0000_0000

  datatype Address =
    | V4(a: nat, b: nat, c: nat, d: nat)  // the four octets, most significant first
    | V6(value: nat)

  predicate ValidAddress(x: Address)
  {
    match x
    case V4(a, b, c, d) => a < 256 && b < 256 && c < 256 && d < 256
    case V6(v) => v < V6Limit
  }

  /** ip_address(n): an IPv4 address below 2^32, an IPv6 address below 2^128, ValueError above. */
  function FromInt(n: nat): (r: Result<Address>)
    ensures r.Ok? <==> n < V6Limit
    ensures r.Ok? ==> ValidAddress(r.value) && (r.value.V4? <==> n < V4Limit)
  {
    if n < V4Limit then Ok(V4(n / 256 / 256 / 256, n / 256 / 256 % 256, n / 256 % 256, n % 256))
    else if n < V6Limit then Ok(V6(n))
    else Err(NotAnAddress)
  }

  /** int(address) */
  function ToInt(x: Address): nat
  {
    match x
    case V4(a, b, c, d) => ((a * 256 + b) * 256 + c) * 256 + d
    case V6(v) => v
  }

  /** Converting to an address loses nothing. */
  lemma ToIntFromInt(n: nat)
    requires n < V6Limit
    ensures ToInt(FromInt(n).value) == n
  {
    if n < V4Limit {
      var q1 := n / 256;
      var q2 := q1 / 256;
      assert n == q1 * 256 + n % 256;
      assert q1 == q2 * 256 + q1 % 256;
      assert q2 == q2 / 256 * 256 + q2 % 256;
    }
  }

  /** str(IPv4Address): dotted quad. */
  function V4Text(x: Address): (s: string)
    requires x.V4?
  {
    Join([Decimal(x.a), Decimal(x.b), Decimal(x.c), Decimal(x.d)], '.')
  }

  /** The eight 16-bit groups of an IPv6 address, most significant first. */
  function Hextets(v: nat): (h: seq<nat>)
    ensures |h| == 8
  {
    seq(8, i requires 0 <= i < 8 => v / Pow65536(7 - i) % 0x1_0000)
  }

  function Pow65536(k: nat): (p: nat)
    ensures p >= 1
  {
    if k == 0 then 1 else 0x1_0000 * Pow65536(k - 1)
  }

  /**
   * The longest run of zero groups scanning from index i, as ipaddress._compress_hextets finds it:
   * (start, length) of the first longest run; cur is the run in progress at i.
   */
  function LongestZeroRun(h: seq<nat>, i: nat, curStart: int, curLen: nat, bestStart: int, bestLen: nat): (r: (int, nat))
    requires i <= |h|
    decreases |h| - i
  {
    if i == |h| then (bestStart, bestLen)
    else if h[i] == 0 then
      var start := if curStart == -1 then i else curStart;
      var len := curLen + 1;
      if len > bestLen then LongestZeroRun(h, i + 1, start, len, start, len)
      else LongestZeroRun(h, i + 1, start, len, bestStart, bestLen)
    else LongestZeroRun(h, i + 1, -1, 0, bestStart, bestLen)
  }

  /** The groups as text, with the longest run of two or more zero groups replaced by an empty group ("::"). */
  function CompressedGroups(h: seq<nat>): seq<string>
  {
    var texts := seq(|h|, i requires 0 <= i < |h| => Hex(h[i]));
    var (start, len) := LongestZeroRun(h, 0, -1, 0, -1, 0);
    if len > 1 && 0 <= start && start + len <= |h| then
      var end := start + len;
      var padded := if end == |h| then texts + [[]] else texts;
      var replaced := padded[..start] + [[]] + padded[end..];
      if start == 0 then [[]] + replaced else replaced
    else texts
  }

  /** str(IPv6Address): compressed lower-case groups joined with ':'. */
  function V6Text(x: Address): string
    requires x.V6?
  {
    Join(CompressedGroups(Hextets(x.value)), ':')
  }

  function AddressText(x: Address): string
  {
    match x
    case V4(_, _, _, _) => V4Text(x)
    case V6(_) => V6Text(x)
  }

  /** The dotted quad reads back as the four octets. */
  lemma V4TextReadsBack(x: Address)
    requires x.V4?
    ensures Split(V4Text(x), '.') == [Decimal(x.a), Decimal(x.b), Decimal(x.c), Decimal(x.d)]
    ensures ParseDecimal(Decimal(x.a)) == x.a && ParseDecimal(Decimal(x.b)) == x.b
    ensures ParseDecimal(Decimal(x.c)) == x.c && ParseDecimal(Decimal(x.d)) == x.d
  {
    var parts := [Decimal(x.a), Decimal(x.b), Decimal(x.c), Decimal(x.d)];
    forall i | 0 <= i < 4 ensures '.' !in parts[i] {
      DigitsAvoid(parts[i], '.');
    }
    SplitJoin(parts, '.');
    ParseDecimalOfDecimal(x.a);
    ParseDecimalOfDecimal(x.b);
    ParseDecimalOfDecimal(x.c);
    ParseDecimalOfDecimal(x.d);
  }

  /** An address prints without tabs or newlines, so it is one column of a tab-separated row. */
  lemma AddressTextPlain(x: Address)
    ensures '\t' !in AddressText(x) && '\n' !in AddressText(x)
  {
    match x
    case V4(a, b, c, d) =>
      var parts := [Decimal(a), Decimal(b), Decimal(c), Decimal(d)];
      forall i, ch | 0 <= i < 4 && ch in "\t\n" ensures ch !in parts[i] {
        DigitsAvoid(parts[i], ch);
      }
      JoinAvoids(parts, '.', '\t');
      JoinAvoids(parts, '.', '\n');
    case V6(v) =>
      var groups := CompressedGroups(Hextets(v));
      forall i | 0 <= i < |groups| ensures '\t' !in groups[i] && '\n' !in groups[i] {
        CompressedGroupsHex(Hextets(v), i);
      }
      JoinAvoids(groups, ':', '\t');
      JoinAvoids(groups, ':', '\n');
  }

  lemma CompressedGroupsHex(h: seq<nat>, i: nat)
    requires i < |CompressedGroups(h)|
    ensures forall j :: 0 <= j < |CompressedGroups(h)[i]| ==> IsHexDigit(CompressedGroups(h)[i][j])
  {
    var texts := seq(|h|, k requires 0 <= k < |h| => Hex(h[k]));
    assert forall k :: 0 <= k < |texts| ==> forall j :: 0 <= j < |texts[k]| ==> IsHexDigit(texts[k][j]);
  }
}
