/** Object identifiers (X.690 section 8.19) and named bit lists (X.690 section 11.2). */
module NumberCodecs {
  import opened Wrappers
  import opened Asn1
  import opened DerTree

  // ----- Object identifiers -------------------------------------------------------------------

  /** The decoder's result from a state in the middle: `id` so far, `first` until a value has been completed. */
  function OidFrom(data: seq<Byte>, room: int, id: nat, first: bool): seq<nat>
    decreases |data|
  {
    if data == [] || room <= 0 then []
    else
      var id' := Wrap(id * 128 + data[0] % 128);
      if data[0] >= 128 then OidFrom(data[1..], room, id', first)
      else if first then [id' / 40, id' % 40] + OidFrom(data[1..], room - 2, 0, false)
      else [id'] + OidFrom(data[1..], room - 1, 0, false)
  }

  method DecOid(data: seq<Byte>, room: int) returns (oid: seq<nat>)
    ensures oid == OidFrom(data, room, 0, true)
  {
    hide Wrap;
    oid := [];
    var i, left, id := 0, room, 0;
    while i < |data| && left > 0
      invariant 0 <= i <= |data|
      invariant OidFrom(data, room, 0, true) == oid + OidFrom(data[i..], left, id, oid == [])
    {
      OidStep(oid, data[i..], left, id);
      assert data[i..][1..] == data[i + 1..];
      id := Wrap(id * 128 + data[i] % 128);
      if data[i] < 128 {
        if oid == [] {
          oid := oid + [id / 40];
          id := id % 40;
          left := left - 1;
        }
        oid := oid + [id];
        left := left - 1;
        id := 0;
      }
      i := i + 1;
    }
  }

  lemma OidStep(oid: seq<nat>, data: seq<Byte>, room: int, id: nat)
    requires data != [] && room > 0
    ensures var id' := Wrap(id * 128 + data[0] % 128);
            oid + OidFrom(data, room, id, oid == []) ==
            if data[0] >= 128 then oid + OidFrom(data[1..], room, id', oid == [])
            else if oid == [] then oid + [id' / 40] + [id' % 40] + OidFrom(data[1..], room - 2, 0, false)
            else oid + [id'] + OidFrom(data[1..], room - 1, 0, false)
  {
    hide Wrap;
  }

  function EncodeArcs(arcs: seq<nat>): seq<Byte> {
    if arcs == [] then [] else Septets(arcs[0]) + EncodeArcs(arcs[1..])
  }

  /** The first two arcs share one value. */
  function EncodeOid(arcs: seq<nat>): seq<Byte>
    requires |arcs| >= 2
  {
    Septets(40 * arcs[0] + arcs[1]) + EncodeArcs(arcs[2..])
  }

  /** One octet with digit `d`, marked as continued or not. */
  lemma OidDigit(d: nat, marked: bool, rest: seq<Byte>, room: int, id: nat, first: bool)
    requires d < 128 && room > 0 && id * 128 + d < 0x1_0000_0000
    ensures var id' := id * 128 + d;
            OidFrom([if marked then d + 128 else d] + rest, room, id, first) ==
            if marked then OidFrom(rest, room, id', first)
            else if first then [id' / 40, id' % 40] + OidFrom(rest, room - 2, 0, false)
            else [id'] + OidFrom(rest, room - 1, 0, false)
  {
    var s := [if marked then d + 128 else d] + rest;
    assert s[1..] == rest && s[0] % 128 == d;
  }

  lemma {:induction false} OidMarked(n: nat, rest: seq<Byte>, room: int, first: bool)
    requires n < 0x200_0000 && room > 0
    ensures OidFrom(Marked(n) + rest, room, 0, first) == OidFrom(rest, room, n, first)
    decreases n
  {
    hide Septets;
    if n >= 128 {
      var last := [n % 128 + 128];
      OidMarked(n / 128, last + rest, room, first);
      assert Marked(n) + rest == Marked(n / 128) + (last + rest);
      OidDigit(n % 128, true, rest, room, n / 128, first);
    } else {
      OidDigit(n, true, rest, room, 0, first);
    }
  }

  lemma OidSeptets(n: nat, rest: seq<Byte>, room: int, first: bool)
    requires n < 0x1_0000_0000 && room > 0
    ensures OidFrom(Septets(n) + rest, room, 0, first)
         == if first then [n / 40, n % 40] + OidFrom(rest, room - 2, 0, false)
            else [n] + OidFrom(rest, room - 1, 0, false)
  {
    hide Wrap, Marked;
    if n >= 128 {
      OidMarked(n / 128, [n % 128] + rest, room, first);
      assert Septets(n) + rest == Marked(n / 128) + ([n % 128] + rest);
      OidDigit(n % 128, false, rest, room, n / 128, first);
    } else {
      OidDigit(n, false, rest, room, 0, first);
    }
  }

  lemma {:induction false} ArcsDecode(arcs: seq<nat>, room: int)
    requires forall i | 0 <= i < |arcs| :: arcs[i] < 0x1_0000_0000
    ensures OidFrom(EncodeArcs(arcs), room, 0, false) == if room <= 0 then [] else if room < |arcs| then arcs[..room] else arcs
    decreases |arcs|
  {
    if arcs != [] && room > 0 {
      OidSeptets(arcs[0], EncodeArcs(arcs[1..]), room, false);
      ArcsDecode(arcs[1..], room - 1);
    }
  }

  /** The arcs as they come back: what the second arc has above 39 goes to the first. */
  function Regrouped(arcs: seq<nat>): seq<nat>
    requires |arcs| >= 2
  {
    [arcs[0] + arcs[1] / 40, arcs[1] % 40] + arcs[2..]
  }

  /**
  With enough room decoding inverts encoding if and only if the second arc is below 40. With too little the result is
  cut short, but the two arcs of the first value are always written together.
  */
  lemma OidRoundTrip(arcs: seq<nat>, room: nat)
    requires |arcs| >= 2 && 40 * arcs[0] + arcs[1] < 0x1_0000_0000 && forall i | 0 <= i < |arcs| :: arcs[i] < 0x1_0000_0000
    ensures var back := Regrouped(arcs);
            OidFrom(EncodeOid(arcs), room, 0, true)
            == if room == 0 then [] else if room == 1 then back[..2] else if room < |arcs| then back[..room] else back
    ensures room >= |arcs| ==> (OidFrom(EncodeOid(arcs), room, 0, true) == arcs <==> arcs[1] < 40)
  {
    hide Septets;
    if room > 0 {
      OidSeptets(40 * arcs[0] + arcs[1], EncodeArcs(arcs[2..]), room, true);
      ArcsDecode(arcs[2..], room - 2);
      FirstValue(arcs[0], arcs[1]);
    }
    RegroupedIs(arcs);
  }

  lemma FirstValue(a: nat, b: nat)
    ensures (40 * a + b) / 40 == a + b / 40 && (40 * a + b) % 40 == b % 40
  {
  }

  lemma RegroupedIs(arcs: seq<nat>)
    requires |arcs| >= 2
    ensures Regrouped(arcs) == arcs <==> arcs[1] < 40
  {
    assert arcs == [arcs[0], arcs[1]] + arcs[2..];
    assert Regrouped(arcs)[1] == arcs[1] % 40;
  }

  /** Whatever the input is, more arcs are written than there is room for exactly when a value ends and the room is one. */
  lemma OidOverflows(data: seq<Byte>, room: nat)
    ensures |OidFrom(data, room, 0, true)| > room <==> room == 1 && exists i :: 0 <= i < |data| && data[i] < 128
  {
    OidSize(data, room, 0, true);
  }

  lemma {:induction false} OidSize(data: seq<Byte>, room: int, id: nat, first: bool)
    ensures |OidFrom(data, room, id, first)| > (if room < 0 then 0 else room)
       <==> first && room == 1 && exists i :: 0 <= i < |data| && data[i] < 128
    decreases |data|
  {
    hide Wrap;
    if data != [] && room > 0 {
      var id', rest := Wrap(id * 128 + data[0] % 128), data[1..];
      assert forall i | 0 <= i < |rest| :: rest[i] == data[i + 1];
      OidSize(rest, if data[0] >= 128 then room else if first then room - 2 else room - 1,
              if data[0] >= 128 then id' else 0, first && data[0] >= 128);
      if data[0] >= 128 {
        assert (exists i :: 0 <= i < |data| && data[i] < 128) ==> exists i :: 0 <= i < |rest| && rest[i] < 128 by {
          if i :| 0 <= i < |data| && data[i] < 128 { assert rest[i - 1] == data[i]; }
        }
      }
    }
  }

  // ----- Named bit lists ----------------------------------------------------------------------

  /** The lowest `count` bits of `n`, least significant first. */
  function Bits(n: nat, count: nat): (r: seq<bool>)
    ensures |r| == count
    decreases count
  {
    if count == 0 then [] else [n % 2 == 1] + Bits(n / 2, count - 1)
  }

  function Number(bits: seq<bool>): nat {
    if bits == [] then 0 else (if bits[0] then 1 else 0) + 2 * Number(bits[1..])
  }

  /** `1 << (7 - k)`. */
  function Weight(k: nat): nat
    requires k < 8
  {
    [128, 64, 32, 16, 8, 4, 2, 1][k]
  }

  /** Up to eight bits, first bit highest. */
  function ByteOf(bits: seq<bool>): (r: nat)
    requires |bits| <= 8
  {
    if bits == [] then 0
    else ByteOf(bits[..|bits| - 1]) + (if bits[|bits| - 1] then Weight(|bits| - 1) else 0)
  }

  function BitsOfByte(b: nat): seq<bool> {
    [b / 128 % 2 == 1, b / 64 % 2 == 1, b / 32 % 2 == 1, b / 16 % 2 == 1,
     b / 8 % 2 == 1, b / 4 % 2 == 1, b / 2 % 2 == 1, b % 2 == 1]
  }

  function BitsOfBytes(s: seq<Byte>): (r: seq<bool>)
    ensures |r| == 8 * |s|
  {
    if s == [] then [] else BitsOfByte(s[0]) + BitsOfBytes(s[1..])
  }

  /** The bits a BIT STRING's contents stand for: all but the unused ones at the end. */
  function BitString(s: seq<Byte>): seq<bool>
    requires s != [] && s[0] <= 8 * (|s| - 1)
  {
    BitsOfBytes(s[1..])[..8 * (|s| - 1) - s[0]]
  }

  /** Trailing zero bits removed. */
  function Trim(bits: seq<bool>): (r: seq<bool>)
    ensures r <= bits && (r != [] ==> r[|r| - 1]) && forall i | |r| <= i < |bits| :: !bits[i]
  {
    if bits == [] || bits[|bits| - 1] then bits else Trim(bits[..|bits| - 1])
  }

  function Pow2(n: nat): (r: nat)
    ensures r > 0
  {
    if n == 0 then 1 else 2 * Pow2(n - 1)
  }

  lemma {:induction false} Pow2Sum(m: nat, n: nat)
    ensures Pow2(m + n) == Pow2(m) * Pow2(n)
    decreases n
  {
    if n > 0 {
      Pow2Sum(m, n - 1);
    }
  }

  lemma Pow2Word()
    ensures Pow2(32) == 0x1_0000_0000
  {
    assert Pow2(2) == 4;
    Pow2Sum(2, 2);
    Pow2Sum(4, 4);
    Pow2Sum(8, 8);
    Pow2Sum(16, 16);
  }

  lemma {:induction false} NumberOfBits(n: nat, count: nat)
    requires n < Pow2(count)
    ensures Number(Bits(n, count)) == n
    decreases count
  {
    if count > 0 {
      NumberOfBits(n / 2, count - 1);
      assert Bits(n, count)[1..] == Bits(n / 2, count - 1);
    }
  }

  /** Zero bits at the end do not count. */
  lemma {:induction false} NumberOfTrim(bits: seq<bool>)
    ensures Number(Trim(bits)) == Number(bits)
    decreases |bits|
  {
    if bits != [] && !bits[|bits| - 1] {
      NumberOfTrim(bits[..|bits| - 1]);
      NumberDropLast(bits);
    }
  }

  lemma {:induction false} NumberDropLast(bits: seq<bool>)
    requires bits != [] && !bits[|bits| - 1]
    ensures Number(bits[..|bits| - 1]) == Number(bits)
    decreases |bits|
  {
    if |bits| > 1 {
      NumberDropLast(bits[1..]);
      assert bits[1..][..|bits| - 2] == bits[..|bits| - 1][1..];
    }
  }

  /** Where the bits start being zero to the end. */
  lemma TrimIs(bits: seq<bool>, n: nat)
    requires n <= |bits| && (n > 0 ==> bits[n - 1]) && forall i | n <= i < |bits| :: !bits[i]
    ensures Trim(bits) == bits[..n]
  {
    var t := Trim(bits);
    assert forall i | 0 <= i < |t| :: t[i] == bits[i];
  }

  lemma ByteBits(bits: seq<bool>)
    requires |bits| == 8
    ensures ByteOf(bits) < 256 && BitsOfByte(ByteOf(bits)) == bits
  {
    hide ByteOf, If;
    HighNibble(bits);
    LowNibble(bits);
    DigitsBack(bits, ByteOf(bits));
  }

  lemma Scaled(b: bool, w: nat)
    ensures If(b, w) == w * If(b, 1) && If(b, 1) < 2 && (If(b, 1) == 1) == b
  {
  }

  lemma DigitsBack(bits: seq<bool>, n: nat)
    requires |bits| == 8
    requires n == If(bits[0], 128) + If(bits[1], 64) + If(bits[2], 32) + If(bits[3], 16)
                + If(bits[4], 8) + If(bits[5], 4) + If(bits[6], 2) + If(bits[7], 1)
    ensures n < 256
    ensures (n / 128 % 2 == 1) == bits[0] && (n / 64 % 2 == 1) == bits[1] && (n / 32 % 2 == 1) == bits[2]
    ensures (n / 16 % 2 == 1) == bits[3] && (n / 8 % 2 == 1) == bits[4] && (n / 4 % 2 == 1) == bits[5]
    ensures (n / 2 % 2 == 1) == bits[6] && (n % 2 == 1) == bits[7]
  {
    hide If;
    Scaled(bits[0], 128);
    Scaled(bits[1], 64);
    Scaled(bits[2], 32);
    Scaled(bits[3], 16);
    Scaled(bits[4], 8);
    Scaled(bits[5], 4);
    Scaled(bits[6], 2);
    Scaled(bits[7], 1);
    EightDigits(If(bits[0], 1), If(bits[1], 1), If(bits[2], 1), If(bits[3], 1),
                If(bits[4], 1), If(bits[5], 1), If(bits[6], 1), If(bits[7], 1), n);
  }

  lemma EightDigits(a: nat, b: nat, c: nat, d: nat, e: nat, f: nat, g: nat, h: nat, n: nat)
    requires a < 2 && b < 2 && c < 2 && d < 2 && e < 2 && f < 2 && g < 2 && h < 2
    requires n == 128 * a + 64 * b + 32 * c + 16 * d + 8 * e + 4 * f + 2 * g + h
    ensures n < 256 && n / 128 % 2 == a && n / 64 % 2 == b && n / 32 % 2 == c && n / 16 % 2 == d
    ensures n / 8 % 2 == e && n / 4 % 2 == f && n / 2 % 2 == g && n % 2 == h
  {
    assert n / 128 == a;
    assert n / 64 == 2 * a + b;
    assert n / 32 == 4 * a + 2 * b + c;
    assert n / 16 == 8 * a + 4 * b + 2 * c + d;
    assert n / 8 == 16 * a + 8 * b + 4 * c + 2 * d + e;
    assert n / 4 == 32 * a + 16 * b + 8 * c + 4 * d + 2 * e + f;
    assert n / 2 == 64 * a + 32 * b + 16 * c + 8 * d + 4 * e + 2 * f + g;
  }

  function If(b: bool, w: nat): nat { if b then w else 0 }

  lemma HighNibble(bits: seq<bool>)
    requires |bits| == 8
    ensures ByteOf(bits[..4]) == If(bits[0], 128) + If(bits[1], 64) + If(bits[2], 32) + If(bits[3], 16)
  {
    var s := bits[..4];
    assert s[..3][..2] == s[..2] && s[..3][..2][..1] == s[..1] && s[..1][..0] == [];
    assert ByteOf(s[..1]) == If(bits[0], 128);
    assert ByteOf(s[..2]) == ByteOf(s[..1]) + If(bits[1], 64) by { assert s[..2][..1] == s[..1]; }
    assert ByteOf(s[..3]) == ByteOf(s[..2]) + If(bits[2], 32);
  }

  lemma LowNibble(bits: seq<bool>)
    requires |bits| == 8
    ensures ByteOf(bits) == ByteOf(bits[..4]) + If(bits[4], 8) + If(bits[5], 4) + If(bits[6], 2) + If(bits[7], 1)
  {
    assert bits[..7][..6] == bits[..6] && bits[..6][..5] == bits[..5] && bits[..5][..4] == bits[..4];
    assert ByteOf(bits[..5]) == ByteOf(bits[..4]) + If(bits[4], 8);
    assert ByteOf(bits[..6]) == ByteOf(bits[..5]) + If(bits[5], 4);
    assert ByteOf(bits[..7]) == ByteOf(bits[..6]) + If(bits[6], 2);
  }

  /** One bit of the loop: the byte grows, or stays, and the count of unused bits is reset or grows. */
  lemma {:induction false} BitAt(n: nat, count: nat, i: nat)
    requires i < count
    ensures Bits(n, count)[i] == (Shifted(n, i) % 2 == 1)
    decreases i
  {
    if i > 0 {
      BitAt(n / 2, count - 1, i - 1);
    }
  }

  /** `n >> i`. */
  function Shifted(n: nat, i: nat): nat
    decreases i
  {
    if i == 0 then n else Shifted(n / 2, i - 1)
  }

  lemma {:induction false} ShiftOnce(n: nat, i: nat)
    ensures Shifted(n, i + 1) == Shifted(n, i) / 2
    decreases i
  {
    if i > 0 {
      ShiftOnce(n / 2, i - 1);
    }
  }

  /** The 32 bits in four groups. */
  function Group(bits: seq<bool>, j: nat): (r: seq<bool>)
    requires 8 * j + 8 <= |bits|
    ensures |r| == 8
  {
    bits[8 * j..8 * j + 8]
  }

  /** Octets made of groups of bits give the bits back. */
  lemma {:induction false} GroupsBack(s: seq<Byte>, bits: seq<bool>)
    requires |bits| == 8 * |s| && forall j | 0 <= j < |s| :: s[j] as nat == ByteOf(Group(bits, j))
    ensures BitsOfBytes(s) == bits
    decreases |s|
  {
    if s != [] {
      ByteBits(Group(bits, 0));
      forall j | 0 <= j < |s| - 1 ensures s[1..][j] as nat == ByteOf(Group(bits[8..], j)) {
        assert Group(bits[8..], j) == Group(bits, j + 1);
      }
      GroupsBack(s[1..], bits[8..]);
      assert bits == Group(bits, 0) + bits[8..];
    }
  }

  /** Cutting off whole unused octets, and counting the other unused bits, leaves the trimmed bits. */
  lemma CutUnused(s: seq<Byte>, bits: seq<bool>, unused: nat)
    requires |s| == 5 && |bits| == 32 && unused <= 32 && s[0] == unused % 8
    requires forall j | 0 <= j < 4 :: s[1 + j] as nat == ByteOf(Group(bits, j))
    requires (unused < 32 ==> bits[31 - unused]) && forall k | 32 - unused <= k < 32 :: !bits[k]
    ensures BitString(s[..5 - unused / 8]) == Trim(bits)
  {
    hide ByteOf, BitsOfBytes, Trim;
    var m := 4 - unused / 8;
    assert s[..m + 1][1..] == s[1..][..m];
    forall j | 0 <= j < m ensures s[1..][..m][j] as nat == ByteOf(Group(bits[..8 * m], j)) {
      assert Group(bits[..8 * m], j) == Group(bits, j);
    }
    GroupsBack(s[1..][..m], bits[..8 * m]);
    TrimIs(bits, 32 - unused);
  }

  /** One more bit of the octet being filled. */
  lemma GrowOctet(bits: seq<bool>, i: nat)
    requires i < |bits|
    ensures var j := i / 8;
            ByteOf(bits[8 * j..i + 1]) == ByteOf(bits[8 * j..i]) + If(bits[i], Weight(i % 8))
  {
    var j := i / 8;
    assert bits[8 * j..i + 1][..i - 8 * j] == bits[8 * j..i];
  }

  /** What the loop knows before bit `i`: the octets finished, the one in work, and the zero bits just seen. */
  ghost predicate Filling(bits: seq<bool>, i: nat, done: seq<Byte>, octet: nat, unused: nat)
    requires |bits| == 32 && i <= 32
  {
    && |done| == i / 8 && (forall j | 0 <= j < i / 8 :: done[j] as nat == ByteOf(Group(bits, j)))
    && octet == ByteOf(bits[8 * (i / 8)..i])
    && unused <= i && (unused < i ==> bits[i - unused - 1]) && forall k | i - unused <= k < i :: !bits[k]
  }

  lemma FillOne(bits: seq<bool>, i: nat, done: seq<Byte>, octet: nat, unused: nat)
    requires |bits| == 32 && i < 32 && Filling(bits, i, done, octet, unused)
    ensures var octet' := octet + If(bits[i], Weight(i % 8));
            && octet' < 256
            && Filling(bits, i + 1, if i % 8 == 7 then done + [octet'] else done, if i % 8 == 7 then 0 else octet',
                       if bits[i] then 0 else unused + 1)
  {
    hide ByteOf;
    var octet' := octet + If(bits[i], Weight(i % 8));
    GrowOctet(bits, i);
    OctetBound(bits[8 * (i / 8)..i + 1]);
    if i % 8 == 7 {
      assert Group(bits, i / 8) == bits[8 * (i / 8)..i + 1];
      OctetBound(bits[i + 1..i + 1]);
      FillDone(bits, i / 8, done, octet');
    }
  }

  lemma FillNone(bits: seq<bool>)
    requires |bits| == 32
    ensures Filling(bits, 0, [], 0, 0)
  {
    OctetBound(bits[0..0]);
  }

  lemma ShiftNone(n: nat)
    ensures Shifted(n, 0) == n
  {
  }

  lemma FillDone(bits: seq<bool>, n: nat, done: seq<Byte>, octet: Byte)
    requires |done| == n && 8 * n + 8 <= |bits| && octet as nat == ByteOf(Group(bits, n))
    requires forall j | 0 <= j < n :: done[j] as nat == ByteOf(Group(bits, j))
    ensures forall j | 0 <= j < n + 1 :: (done + [octet])[j] as nat == ByteOf(Group(bits, j))
  {
    hide ByteOf, Group;
  }

  lemma {:induction false} OctetBound(bits: seq<bool>)
    requires |bits| <= 8
    ensures |bits| == 0 ==> ByteOf(bits) == 0
    ensures |bits| > 0 ==> ByteOf(bits) + Weight(|bits| - 1) <= 256
    decreases |bits|
  {
    if bits != [] {
      OctetBound(bits[..|bits| - 1]);
    }
  }

  /** Sets bit `k` of the octet at `p`, counted from the highest, which is cleared first if it is new. */
  method PutBit(out: array<Byte>, p: nat, k: nat, bit: bool)
    requires p < out.Length && k < 8
    requires (if k == 0 then 0 else out[p] as nat) + If(bit, Weight(k)) < 256
    modifies out
    ensures out[p] as nat == (if k == 0 then 0 else old(out[p]) as nat) + If(bit, Weight(k))
    ensures forall q | 0 <= q < out.Length && q != p :: out[q] == old(out[q])
  {
    if k == 0 {
      out[p] := 0;
    }
    if bit {
      out[p] := out[p] + Weight(k);
    }
  }

  /**
  Writes the unused-bits octet and four octets of bits into `out`; the value is the first `len` octets. Dropping
  the unused bits leaves the bits of `n` up to the highest one that is set, from which `n` is recovered.
  */
  method Ui2BitString(n: nat, out: array<Byte>) returns (len: nat)
    requires n < 0x1_0000_0000 && out.Length >= 5
    modifies out
    ensures 1 <= len <= 5 && out[0] <= 8 * (len - 1) && out[0] < 8
    ensures BitString(out[..len]) == Trim(Bits(n, 32)) && Number(BitString(out[..len])) == n
    ensures forall k | 5 <= k < out.Length :: out[k] == old(out[k])
  {
    hide ByteOf, Weight, Bits, Trim, BitString, Number, Group, Filling, If, Shifted;
    ghost var bits := Bits(n, 32);
    ghost var done: seq<Byte>, octet: nat := [], 0;
    FillNone(bits);
    ShiftNone(n);
    var rest, p, unused, i := n, 0, 0, 0;
    while i < 32
      invariant 0 <= i <= 32 && p == (i + 7) / 8 && rest == Shifted(n, i)
      invariant Filling(bits, i, done, octet, unused) && (i % 8 == 0 ==> octet == 0)
      invariant |done| == i / 8 && out[1..1 + |done|] == done
      invariant unused <= i && (i % 8 != 0 ==> out[p] as nat == octet)
      invariant forall k | 5 <= k < out.Length :: out[k] == old(out[k])
    {
      BitAt(n, 32, i);
      ShiftOnce(n, i);
      FillOne(bits, i, done, octet, unused);
      if i % 8 == 0 {
        p := p + 1;
        octet := 0;
      }
      ghost var before := out[..];
      PutBit(out, p, i % 8, rest % 2 == 1);
      assert out[1..1 + |done|] == before[1..1 + |done|];
      unused := if rest % 2 == 1 then 0 else unused + 1;
      octet := out[p];
      if i % 8 == 7 {
        done, octet := done + [out[p]], 0;
      }
      rest, i := rest / 2, i + 1;
    }
    out[0] := unused % 8;
    len := 5 - unused / 8;
    assert out[..5][1..] == done;
    Finished(n, out[..5], unused);
    assert out[..5][..len] == out[..len];
  }

  lemma Finished(n: nat, s: seq<Byte>, unused: nat)
    requires n < 0x1_0000_0000 && |s| == 5 && s[0] == unused % 8
    requires Filling(Bits(n, 32), 32, s[1..], 0, unused)
    ensures var v := s[..5 - unused / 8]; BitString(v) == Trim(Bits(n, 32)) && Number(BitString(v)) == n
  {
    hide ByteOf, Weight, Bits, Trim, BitString, Number, Group, Pow2;
    CutUnused(s, Bits(n, 32), unused);
    NumberOfTrim(Bits(n, 32));
    Pow2Word();
    NumberOfBits(n, 32);
  }
}
