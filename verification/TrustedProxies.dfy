/** The check that a list of trusted proxies does not trust every IPv4 address. Entries are CIDR prefixes of IPv4
    (section 3.1 of RFC 4632) or IPv6 addresses; an IPv4 address meets an IPv6 prefix through its mapped form
    (section 2.5.5.2 of RFC 4291). */
module TrustedProxies {
  import opened Wrappers

  /** An address as the octets of IPv4 or the sixteen-bit parts of IPv6, most significant first. */
  datatype Address = V4(octets: seq<nat>) | V6(parts: seq<nat>)

  datatype Entry = Entry(address: Address, prefix: Option<nat>)

  datatype Interval = Interval(start: int, end: int)

  const TWO_32: nat := 0x1_0000_0000
  const IPV4_MAX: nat := 0xffff_ffff
  const IPV4_MAPPED_BASE: seq<nat> := [0, 0, 0, 0, 0, 0xffff, 0, 0]

  predicate Digits(s: seq<nat>, base: nat) {
    forall k :: 0 <= k < |s| ==> s[k] < base
  }

  /** The entries that pass the checks made before coverage is decided. */
  predicate Valid(e: Entry) {
    match e.address
    case V4(octets) => |octets| == 4 && Digits(octets, 0x100) && (e.prefix.Some? ==> 1 <= e.prefix.value <= 32)
    case V6(parts) => |parts| == 8 && Digits(parts, 0x1_0000) && (e.prefix.Some? ==> 1 <= e.prefix.value <= 128)
  }

  // ----- What an entry means: agreement on the leading bits -----

  function Pow2(n: nat): (p: nat)
    ensures p > 0
  {
    if n == 0 then 1 else 2 * Pow2(n - 1)
  }

  /** The number that sixteen-bit parts denote. */
  ghost function Number(parts: seq<nat>): nat {
    if parts == [] then 0 else parts[0] * Pow2(16 * (|parts| - 1)) + Number(parts[1..])
  }

  ghost predicate SharesPrefix(a: nat, b: nat, width: nat, prefix: nat)
    requires prefix <= width
  {
    a / Pow2(width - prefix) == b / Pow2(width - prefix)
  }

  ghost function OctetsNumber(octets: seq<nat>): nat
    requires |octets| == 4
  {
    octets[0] * 0x100_0000 + octets[1] * 0x1_0000 + octets[2] * 0x100 + octets[3]
  }

  /** The IPv6 address that stands for an IPv4 address. */
  ghost function Mapped(ip: nat): nat {
    0xffff * TWO_32 + ip
  }

  ghost predicate Trusts(e: Entry, ip: nat)
    requires Valid(e)
  {
    match e.address
    case V4(octets) => SharesPrefix(ip, OctetsNumber(octets), 32, if e.prefix.Some? then e.prefix.value else 32)
    case V6(parts) => SharesPrefix(Mapped(ip), Number(parts), 128, if e.prefix.Some? then e.prefix.value else 128)
  }

  // ----- The code -----

  function Ipv4Number(octets: seq<nat>): nat {
    if octets == [] then 0
    else Ipv4Number(octets[..|octets| - 1]) * 256 + octets[|octets| - 1]
  }

  function Ipv4Interval(octets: seq<nat>, prefix: nat): Interval
    requires prefix <= 32
  {
    var blockSize := Pow2(32 - prefix);
    var start := Ipv4Number(octets) / blockSize * blockSize;
    Interval(start, start + blockSize - 1)
  }

  /** The address library's prefix match: it compares part by part, and the last part after a shift. */
  function MatchParts(first: seq<nat>, second: seq<nat>, bits: int): bool
    requires |first| == |second| && bits <= 16 * |first|
  {
    if bits <= 0 then true
    else
      var shift := if bits < 16 then 16 - bits else 0;
      && first[0] / Pow2(shift) == second[0] / Pow2(shift)
      && MatchParts(first[1..], second[1..], bits - 16)
  }

  function IsIPv4MappedAddress(parts: seq<nat>): bool
    requires |parts| == 8
  {
    MatchParts(parts, IPV4_MAPPED_BASE, 96)
  }

  function ToIPv4Address(parts: seq<nat>): seq<nat>
    requires |parts| == 8
  {
    [parts[6] / 256, parts[6] % 256, parts[7] / 256, parts[7] % 256]
  }

  function Ipv4Coverage(entry: Entry): Option<Interval>
    requires Valid(entry)
  {
    var prefix :=
      if entry.prefix == None then (if entry.address.V4? then 32 else 128) else entry.prefix.value;
    match entry.address
    case V4(octets) => Some(Ipv4Interval(octets, prefix))
    case V6(parts) =>
      if prefix <= 96 then
        if MatchParts(IPV4_MAPPED_BASE, parts, prefix) then Some(Interval(0, IPV4_MAX)) else None
      else if !IsIPv4MappedAddress(parts) then None
      else Some(Ipv4Interval(ToIPv4Address(parts), prefix - 96))
  }

  // ----- Arithmetic of powers of two -----

  lemma Doubled(x: int, y: int)
    ensures 2 * (x * y) == 2 * x * y
  {
  }

  lemma {:induction false} Pow2Sum(a: nat, b: nat)
    ensures Pow2(a + b) == Pow2(a) * Pow2(b)
  {
    if a > 0 {
      Pow2Sum(a - 1, b);
      Doubled(Pow2(a - 1), Pow2(b));
    }
  }

  lemma Pow2Values()
    ensures Pow2(8) == 0x100 && Pow2(16) == 0x1_0000 && Pow2(32) == TWO_32
  {
    assert Pow2(4) == 16;
    Pow2Sum(4, 4);
    Pow2Sum(8, 8);
    Pow2Sum(16, 16);
  }

  lemma ProductAtLeast(k: int, d: nat)
    requires k >= 1
    ensures k * d >= d
  {
    assert (k - 1) * d >= 0;
  }

  /** A number determines its quotient and remainder. */
  lemma DivisionIsUnique(q: int, r: int, p: int, s: int, d: nat)
    requires 0 <= r < d && 0 <= s < d
    requires q * d + r == p * d + s
    ensures q == p && r == s
  {
    assert (q - p) * d == s - r && (p - q) * d == r - s;
    if q > p {
      ProductAtLeast(q - p, d);
    } else if q < p {
      ProductAtLeast(p - q, d);
    }
  }

  lemma QuotientIs(n: int, d: nat, q: int, r: int)
    requires 0 <= r < d && n == q * d + r
    ensures n / d == q && n % d == r
  {
    DivisionIsUnique(n / d, n % d, q, r, d);
  }

  /** Dividing twice is dividing by the product. */
  lemma QuotientOfQuotient(n: nat, a: nat, b: nat)
    requires a > 0 && b > 0
    ensures a * b > 0 && n / (a * b) == n / a / b
  {
    var m := n / a;
    var q, s := m / b, m % b;
    calc {
      n;
      m * a + n % a;
      (q * b + s) * a + n % a;
      { MulDistributes(q * b, s, a); }
      q * b * a + s * a + n % a;
      { MulReassociates(q, b, a); }
      q * (a * b) + (s * a + n % a);
    }
    RemainderBound(s, a, b, n % a);
    QuotientIs(n, a * b, q, s * a + n % a);
  }

  lemma MulDistributes(x: int, y: int, z: int)
    ensures (x + y) * z == x * z + y * z
  {
  }

  lemma MulReassociates(x: int, y: int, z: int)
    ensures x * y * z == x * (z * y)
  {
  }

  lemma RemainderBound(s: int, a: nat, b: nat, r: int)
    requires 0 <= s < b && 0 <= r < a
    ensures 0 <= s * a + r < a * b
  {
    ProductAtLeast(b - s, a);
    MulDistributes(b - s, s, a);
  }

  /** A multiple of the divisor in front does not disturb the quotient of the rest. */
  lemma QuotientOfSum(x: int, d: nat, r: int)
    requires d > 0
    ensures (x * d + r) / d == x + r / d
  {
    MulDistributes(x, r / d, d);
    QuotientIs(x * d + r, d, x + r / d, r % d);
  }

  lemma PositiveFactor(k: int, d: nat)
    requires k * d > 0
    ensures k > 0
  {
  }

  lemma QuotientBound(r: nat, q: nat, d: nat)
    requires d > 0 && r < q * d
    ensures 0 <= r / d < q
  {
    MulDistributes(q - r / d, r / d, d);
    PositiveFactor(q - r / d, d);
  }

  // ----- The address library's match is agreement on the leading bits -----

  lemma {:induction false} NumberBound(parts: seq<nat>)
    requires Digits(parts, 0x1_0000)
    ensures Number(parts) < Pow2(16 * |parts|)
  {
    if parts != [] {
      var m := Pow2(16 * (|parts| - 1));
      NumberBound(parts[1..]);
      Pow2Sum(16, 16 * (|parts| - 1));
      Pow2Values();
      ProductAtLeast(0x1_0000 - parts[0], m);
      MulDistributes(0x1_0000 - parts[0], parts[0], m);
    }
  }

  lemma {:induction false} MatchPartsComparesPrefix(a: seq<nat>, b: seq<nat>, bits: nat)
    requires |a| == |b| && Digits(a, 0x1_0000) && Digits(b, 0x1_0000) && bits <= 16 * |a|
    ensures MatchParts(a, b, bits) <==> SharesPrefix(Number(a), Number(b), 16 * |a|, bits)
  {
    if bits == 0 {
      NumberBound(a);
      NumberBound(b);
      QuotientIs(Number(a), Pow2(16 * |a|), 0, Number(a));
      QuotientIs(Number(b), Pow2(16 * |a|), 0, Number(b));
    } else {
      NumberBound(a[1..]);
      NumberBound(b[1..]);
      if bits < 16 {
        MatchWithinFirstPart(a, b, bits);
      } else {
        MatchPartsComparesPrefix(a[1..], b[1..], bits - 16);
        QuotientsAgree(a[0], Number(a[1..]), b[0], Number(b[1..]), bits - 16, 16 * |a| - bits);
        assert bits - 16 + (16 * |a| - bits) == 16 * (|a| - 1);
      }
    }
  }

  lemma MatchWithinFirstPart(a: seq<nat>, b: seq<nat>, bits: nat)
    requires |a| == |b| > 0 && 0 < bits < 16
    requires Number(a[1..]) < Pow2(16 * (|a| - 1)) && Number(b[1..]) < Pow2(16 * (|a| - 1))
    ensures MatchParts(a, b, bits) <==> SharesPrefix(Number(a), Number(b), 16 * |a|, bits)
  {
    LeadingPartShifted(a[0], Number(a[1..]), 16 * (|a| - 1), 16 - bits);
    LeadingPartShifted(b[0], Number(b[1..]), 16 * (|a| - 1), 16 - bits);
  }

  lemma LeadingPartShifted(x: nat, r: nat, m: nat, shift: nat)
    requires r < Pow2(m)
    ensures (x * Pow2(m) + r) / Pow2(m + shift) == x / Pow2(shift)
  {
    QuotientIs(x * Pow2(m) + r, Pow2(m), x, r);
    Pow2Sum(m, shift);
    QuotientOfQuotient(x * Pow2(m) + r, Pow2(m), Pow2(shift));
  }

  /** Two numbers with leading parts `x` and `y` agree above the last `low` bits. */
  lemma QuotientsAgree(x: nat, r: nat, y: nat, s: nat, high: nat, low: nat)
    requires r < Pow2(high + low) && s < Pow2(high + low)
    ensures (x * Pow2(high + low) + r) / Pow2(low) == (y * Pow2(high + low) + s) / Pow2(low)
       <==> x == y && r / Pow2(low) == s / Pow2(low)
  {
    SplitQuotient(x, r, high, low);
    SplitQuotient(y, s, high, low);
    DivisionIsUniqueIff(x, r / Pow2(low), y, s / Pow2(low), Pow2(high));
  }

  lemma SplitQuotient(x: nat, r: nat, high: nat, low: nat)
    requires r < Pow2(high + low)
    ensures (x * Pow2(high + low) + r) / Pow2(low) == x * Pow2(high) + r / Pow2(low)
    ensures 0 <= r / Pow2(low) < Pow2(high)
  {
    Pow2Sum(high, low);
    SplitQuotientAt(x, r, Pow2(high), Pow2(low));
  }

  lemma SplitQuotientAt(x: nat, r: nat, high: nat, d: nat)
    requires d > 0 && r < high * d
    ensures (x * (high * d) + r) / d == x * high + r / d
    ensures 0 <= r / d < high
  {
    MulReassociates(x, high, d);
    QuotientOfSum(x * high, d, r);
    QuotientBound(r, high, d);
  }

  lemma DivisionIsUniqueIff(q: int, r: int, p: int, s: int, d: nat)
    requires 0 <= r < d && 0 <= s < d
    ensures q * d + r == p * d + s <==> q == p && r == s
  {
    if q * d + r == p * d + s {
      DivisionIsUnique(q, r, p, s, d);
    }
  }

  lemma MulHorner(x: nat, m: nat, r: nat, n: nat)
    ensures (x * m + r) * n == x * (m * n) + r * n
  {
    MulDistributes(x * m, r, n);
    MulReassociates(x, m, n);
  }

  lemma {:induction false} NumberOfConcatenation(a: seq<nat>, b: seq<nat>)
    ensures Number(a + b) == Number(a) * Pow2(16 * |b|) + Number(b)
  {
    if a == [] {
      assert a + b == b;
    } else {
      assert (a + b)[1..] == a[1..] + b;
      NumberOfConcatenation(a[1..], b);
      Pow2Sum(16 * (|a| - 1), 16 * |b|);
      MulHorner(a[0], Pow2(16 * (|a| - 1)), Number(a[1..]), Pow2(16 * |b|));
    }
  }

  lemma NumberOfTwo(x: nat, y: nat)
    ensures Number([x, y]) == x * 0x1_0000 + y
  {
    Pow2Values();
    assert [x, y][1..] == [y];
    NumberOfOne(y);
  }

  /** An IPv6 number is its leading 96 bits and the IPv4 number of its last two parts. */
  lemma NumberOfParts(parts: seq<nat>)
    requires |parts| == 8 && Digits(parts, 0x1_0000)
    ensures Number(parts) == Number(parts[..6]) * TWO_32 + OctetsNumber(ToIPv4Address(parts))
    ensures OctetsNumber(ToIPv4Address(parts)) <= IPV4_MAX && Digits(ToIPv4Address(parts), 0x100)
  {
    assert parts == parts[..6] + [parts[6], parts[7]];
    NumberOfConcatenation(parts[..6], [parts[6], parts[7]]);
    NumberOfTwo(parts[6], parts[7]);
    OctetsOfParts(parts);
    Pow2Values();
  }

  lemma OctetsOfParts(parts: seq<nat>)
    requires |parts| == 8 && parts[6] < 0x1_0000 && parts[7] < 0x1_0000
    ensures OctetsNumber(ToIPv4Address(parts)) == parts[6] * 0x1_0000 + parts[7] <= IPV4_MAX
    ensures Digits(ToIPv4Address(parts), 0x100)
  {
    assert parts[6] / 256 < 256 && parts[7] / 256 < 256;
  }

  lemma MappedBaseNumber()
    ensures Number(IPV4_MAPPED_BASE) == 0xffff * TWO_32
  {
    NumberOfParts(IPV4_MAPPED_BASE);
    var zeros: seq<nat> := [0, 0, 0, 0, 0];
    assert IPV4_MAPPED_BASE[..6] == zeros + [0xffff];
    NumberOfConcatenation(zeros, [0xffff]);
    LeadingZeros(zeros);
    NumberOfOne(0xffff);
  }

  lemma NumberOfOne(x: nat)
    ensures Number([x]) == x
  {
    assert [x][1..] == [];
    assert Pow2(0) == 1;
  }

  lemma {:induction false} LeadingZeros(s: seq<nat>)
    requires forall k :: 0 <= k < |s| ==> s[k] == 0
    ensures Number(s) == 0
  {
    if s != [] {
      LeadingZeros(s[1..]);
    }
  }

  // ----- Coverage of one entry -----

  lemma Ipv4NumberIsPositional(octets: seq<nat>)
    requires |octets| == 4 && Digits(octets, 0x100)
    ensures Ipv4Number(octets) == OctetsNumber(octets) <= IPV4_MAX
  {
    var a, b, c := octets[..3], octets[..2], octets[..1];
    assert a[..2] == b && b[..1] == c && c[..0] == [];
    assert Ipv4Number(c) == octets[0];
    assert Ipv4Number(b) == octets[0] * 256 + octets[1];
    assert Ipv4Number(a) == Ipv4Number(b) * 256 + octets[2];
  }

  /** A block of an IPv4 prefix holds exactly the addresses that share the prefix. */
  lemma Ipv4IntervalIsExact(octets: seq<nat>, prefix: nat, ip: nat)
    requires |octets| == 4 && Digits(octets, 0x100) && prefix <= 32 && ip <= IPV4_MAX
    ensures
      var block := Ipv4Interval(octets, prefix);
      && (block.start <= ip <= block.end <==> SharesPrefix(ip, OctetsNumber(octets), 32, prefix))
      && 0 <= block.start <= block.end <= IPV4_MAX
  {
    Ipv4NumberIsPositional(octets);
    var n, d := OctetsNumber(octets), Pow2(32 - prefix);
    Pow2Sum(prefix, 32 - prefix);
    Pow2Values();
    BlockIsExact(n, d, ip, Pow2(prefix));
  }

  lemma BlockIsExact(n: nat, d: nat, ip: nat, blocks: nat)
    requires d > 0 && n < blocks * d
    ensures n / d * d <= ip <= n / d * d + d - 1 <==> ip / d == n / d
    ensures 0 <= n / d * d && n / d * d + d <= blocks * d
  {
    QuotientBound(n, blocks, d);
    BlockBounds(n / d, d, blocks);
    if n / d * d <= ip <= n / d * d + d - 1 {
      QuotientIs(ip, d, n / d, ip - n / d * d);
    }
  }

  lemma BlockBounds(q: nat, d: nat, blocks: nat)
    requires q < blocks
    ensures 0 <= q * d && q * d + d <= blocks * d
  {
    ProductAtLeast(blocks - q, d);
    MulDistributes(blocks - q, q, d);
  }

  /** Prefixes of at most 96 bits see the same leading bits in every mapped address. */
  lemma ShortPrefixesTreatMappedAlike(ip: nat, prefix: nat, n: nat)
    requires prefix <= 96 && ip <= IPV4_MAX
    ensures SharesPrefix(Mapped(ip), n, 128, prefix) <==> SharesPrefix(0xffff * TWO_32, n, 128, prefix)
  {
    Pow2Values();
    Pow2Sum(32, 96 - prefix);
    QuotientOfQuotient(Mapped(ip), Pow2(32), Pow2(96 - prefix));
    QuotientOfQuotient(0xffff * TWO_32, Pow2(32), Pow2(96 - prefix));
    QuotientIs(Mapped(ip), Pow2(32), 0xffff, ip);
    QuotientIs(0xffff * TWO_32, Pow2(32), 0xffff, 0);
  }

  /** Longer prefixes also look at the leading bits of the IPv4 address. */
  lemma LongPrefixesSplit(ip: nat, prefix: nat, top: nat, low: nat)
    requires 96 < prefix <= 128 && ip <= IPV4_MAX && low <= IPV4_MAX
    ensures SharesPrefix(Mapped(ip), top * TWO_32 + low, 128, prefix)
       <==> top == 0xffff && SharesPrefix(ip, low, 32, prefix - 96)
  {
    Pow2Values();
    QuotientsAgree(0xffff, ip, top, low, prefix - 96, 128 - prefix);
  }

  lemma MappedTestIsExact(parts: seq<nat>)
    requires |parts| == 8 && Digits(parts, 0x1_0000)
    ensures IsIPv4MappedAddress(parts) <==> Number(parts[..6]) == 0xffff
  {
    MatchPartsComparesPrefix(parts, IPV4_MAPPED_BASE, 96);
    MappedBaseNumber();
    NumberOfParts(parts);
    Pow2Values();
    QuotientIs(Number(parts), Pow2(32), Number(parts[..6]), OctetsNumber(ToIPv4Address(parts)));
    QuotientIs(0xffff * TWO_32, Pow2(32), 0xffff, 0);
  }

  lemma ShortPrefixIsExact(parts: seq<nat>, prefix: nat, ip: nat)
    requires |parts| == 8 && Digits(parts, 0x1_0000) && prefix <= 96 && ip <= IPV4_MAX
    ensures MatchParts(IPV4_MAPPED_BASE, parts, prefix) <==> SharesPrefix(Mapped(ip), Number(parts), 128, prefix)
  {
    MatchPartsComparesPrefix(IPV4_MAPPED_BASE, parts, prefix);
    MappedBaseNumber();
    ShortPrefixesTreatMappedAlike(ip, prefix, Number(parts));
  }

  lemma LongPrefixIsExact(parts: seq<nat>, prefix: nat, ip: nat)
    requires |parts| == 8 && Digits(parts, 0x1_0000) && 96 < prefix <= 128 && ip <= IPV4_MAX
    ensures SharesPrefix(Mapped(ip), Number(parts), 128, prefix) <==>
            (IsIPv4MappedAddress(parts) && SharesPrefix(ip, OctetsNumber(ToIPv4Address(parts)), 32, prefix - 96))
  {
    MappedTestIsExact(parts);
    NumberOfParts(parts);
    LongPrefixesSplit(ip, prefix, Number(parts[..6]), OctetsNumber(ToIPv4Address(parts)));
  }

  /** The interval computed for an entry holds exactly the IPv4 addresses that the entry trusts. */
  lemma CoverageIsExact(e: Entry, ip: nat)
    requires Valid(e) && ip <= IPV4_MAX
    ensures
      var coverage := Ipv4Coverage(e);
      && (Trusts(e, ip) <==> coverage.Some? && coverage.value.start <= ip <= coverage.value.end)
      && (coverage.Some? ==> 0 <= coverage.value.start <= coverage.value.end <= IPV4_MAX)
  {
    if e.address.V4? {
      Ipv4IntervalIsExact(e.address.octets, if e.prefix.Some? then e.prefix.value else 32, ip);
    } else {
      var parts, prefix := e.address.parts, if e.prefix.Some? then e.prefix.value else 128;
      if prefix <= 96 {
        ShortPrefixIsExact(parts, prefix, ip);
      } else {
        LongPrefixIsExact(parts, prefix, ip);
        NumberOfParts(parts);
        Ipv4IntervalIsExact(ToIPv4Address(parts), prefix - 96, ip);
      }
    }
  }

  // ----- Coverage of a list of entries -----

  predicate AtMost(left: Interval, right: Interval) {
    left.start < right.start || (left.start == right.start && left.end <= right.end)
  }

  ghost predicate Sorted(s: seq<Interval>) {
    forall i, j :: 0 <= i < j < |s| ==> AtMost(s[i], s[j])
  }

  function Insert(x: Interval, s: seq<Interval>): (r: seq<Interval>)
    ensures forall y :: y in r <==> y == x || y in s
  {
    if s == [] || AtMost(x, s[0]) then [x] + s else [s[0]] + Insert(x, s[1..])
  }

  lemma {:induction false} InsertKeepsSorted(x: Interval, s: seq<Interval>)
    requires Sorted(s)
    ensures Sorted(Insert(x, s))
  {
    if s != [] && !AtMost(x, s[0]) {
      InsertKeepsSorted(x, s[1..]);
      assert forall y :: y in Insert(x, s[1..]) ==> AtMost(s[0], y);
    }
  }

  function ToSorted(s: seq<Interval>): (r: seq<Interval>)
    ensures Sorted(r) && forall y :: y in r <==> y in s
  {
    if s == [] then []
    else
      InsertKeepsSorted(s[0], ToSorted(s[1..]));
      Insert(s[0], ToSorted(s[1..]))
  }

  function Coverages(entries: seq<Entry>): (r: seq<Interval>)
    requires forall e :: e in entries ==> Valid(e)
    ensures forall i :: i in r <==> exists e :: e in entries && Ipv4Coverage(e) == Some(i)
  {
    if entries == [] then []
    else
      var rest := Coverages(entries[1..]);
      match Ipv4Coverage(entries[0])
      case Some(interval) => [interval] + rest
      case None => rest
  }

  ghost predicate SomeTrusts(entries: seq<Entry>, ip: nat)
    requires forall e :: e in entries ==> Valid(e)
  {
    exists e :: e in entries && Trusts(e, ip)
  }

  ghost predicate InSome(intervals: seq<Interval>, ip: int) {
    exists i :: i in intervals && i.start <= ip <= i.end
  }

  lemma CoveragesAreExact(entries: seq<Entry>, ip: nat)
    requires forall e :: e in entries ==> Valid(e)
    requires ip <= IPV4_MAX
    ensures SomeTrusts(entries, ip) <==> InSome(ToSorted(Coverages(entries)), ip)
  {
    var intervals := Coverages(entries);
    if SomeTrusts(entries, ip) {
      var e :| e in entries && Trusts(e, ip);
      CoverageIsExact(e, ip);
      assert Ipv4Coverage(e).value in intervals;
    }
    if InSome(ToSorted(intervals), ip) {
      var i :| i in ToSorted(intervals) && i.start <= ip <= i.end;
      var e :| e in entries && Ipv4Coverage(e) == Some(i);
      CoverageIsExact(e, ip);
    }
  }

  ghost predicate CoveredThrough(intervals: seq<Interval>, last: int) {
    forall ip :: 0 <= ip <= last ==> InSome(intervals, ip)
  }

  ghost predicate AllTrusted(entries: seq<Entry>)
    requires forall e :: e in entries ==> Valid(e)
  {
    forall ip: nat :: ip <= IPV4_MAX ==> SomeTrusts(entries, ip)
  }

  lemma IntervalExtendsCoverage(intervals: seq<Interval>, k: nat, last: int)
    requires k < |intervals| && CoveredThrough(intervals, last) && intervals[k].start <= last + 1
    ensures CoveredThrough(intervals, if last >= intervals[k].end then last else intervals[k].end)
  {
    assert intervals[k] in intervals;
  }

  /** An address after the first `k` sorted intervals and before all others is in none. */
  lemma GapIsUncovered(intervals: seq<Interval>, k: nat, ip: nat)
    requires Sorted(intervals) && ip <= IPV4_MAX && k <= |intervals|
    requires forall i :: 0 <= i < k ==> intervals[i].end < ip
    requires k < |intervals| ==> ip < intervals[k].start
    ensures !CoveredThrough(intervals, IPV4_MAX)
  {
    forall i | 0 <= i < |intervals|
      ensures !(intervals[i].start <= ip <= intervals[i].end)
    {
      assert i > k ==> AtMost(intervals[k], intervals[i]);
    }
    assert !InSome(intervals, ip);
  }

  /** The sweep over sorted intervals. */
  method CoverEverything(intervals: seq<Interval>) returns (everything: bool)
    requires Sorted(intervals) && forall i :: i in intervals ==> i.end <= IPV4_MAX
    ensures everything <==> CoveredThrough(intervals, IPV4_MAX)
  {
    var coveredThrough := -1;
    for k := 0 to |intervals|
      invariant -1 <= coveredThrough < IPV4_MAX
      invariant CoveredThrough(intervals, coveredThrough)
      invariant forall i :: 0 <= i < k ==> intervals[i].end <= coveredThrough
    {
      var interval := intervals[k];
      if interval.start > coveredThrough + 1 {
        GapIsUncovered(intervals, k, coveredThrough + 1);
        return false;
      }
      IntervalExtendsCoverage(intervals, k, coveredThrough);
      assert interval in intervals;
      coveredThrough := if coveredThrough >= interval.end then coveredThrough else interval.end;
      if coveredThrough == IPV4_MAX { return true; }
    }
    GapIsUncovered(intervals, |intervals|, coveredThrough + 1);
    return false;
  }

  lemma CoveredMeansTrusted(entries: seq<Entry>)
    requires forall e :: e in entries ==> Valid(e)
    ensures CoveredThrough(ToSorted(Coverages(entries)), IPV4_MAX) <==> AllTrusted(entries)
  {
    forall ip: nat | ip <= IPV4_MAX
      ensures SomeTrusts(entries, ip) <==> InSome(ToSorted(Coverages(entries)), ip)
    {
      CoveragesAreExact(entries, ip);
    }
  }

  /** Sweeps over the sorted intervals; the answer is exact for every list of valid entries. */
  method TrustsEveryIpv4Address(entries: seq<Entry>) returns (everything: bool)
    requires forall e :: e in entries ==> Valid(e)
    ensures everything <==> AllTrusted(entries)
  {
    BoundsOfCoverages(entries);
    CoveredMeansTrusted(entries);
    everything := CoverEverything(ToSorted(Coverages(entries)));
  }

  lemma BoundsOfCoverages(entries: seq<Entry>)
    requires forall e :: e in entries ==> Valid(e)
    ensures forall i :: i in ToSorted(Coverages(entries)) ==> 0 <= i.start <= i.end <= IPV4_MAX
  {
    forall i | i in ToSorted(Coverages(entries))
      ensures 0 <= i.start <= i.end <= IPV4_MAX
    {
      var e :| e in entries && Ipv4Coverage(e) == Some(i);
      CoverageIsExact(e, 0);
    }
  }
}
