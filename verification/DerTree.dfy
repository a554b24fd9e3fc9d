/** DER trees and their bytes. */
module DerTree {
  import opened Wrappers
  import opened Asn1

  // DER values as trees and their encoding (X.690 section 8.1), and the theorem that following a path through the
  // encoding is selecting a subtree.

  /** Contents: plain octets, encoded children, or an octet counting unused bits followed by encoded children. */
  datatype Body = Octets(bytes: seq<Byte>) | Kids(kids: seq<Node>) | Wrapped(unused: Byte, kids: seq<Node>)
  datatype Node = Node(cls: nat, constructed: bool, num: nat, body: Body)

  /** Base-128 digits, most significant first, each but the last marked with bit 8. */
  function Septets(n: nat): (r: seq<Byte>)
    ensures |r| >= 1
    decreases n
  {
    if n < 128 then [n] else Marked(n / 128) + [n % 128]
  }

  function Marked(n: nat): (r: seq<Byte>)
    ensures |r| >= 1
    decreases n
  {
    if n < 128 then [n + 128] else Marked(n / 128) + [n % 128 + 128]
  }

  function Identifier(n: Node): (r: seq<Byte>)
    requires n.cls < 4
    ensures |r| >= 1
  {
    var top := n.cls * 64 + (if n.constructed then 32 else 0);
    if n.num < 31 then [top + n.num] else [top + 31] + Septets(n.num)
  }

  function BigEndian(n: nat, count: nat): (r: seq<Byte>)
    ensures |r| == count
    decreases count
  {
    if count == 0 then [] else BigEndian(n / 256, count - 1) + [n % 256]
  }

  /** The shortest definite form; lengths are below 2^32. */
  function Length(n: nat): (r: seq<Byte>)
    ensures |r| >= 1
  {
    if n < 0x80 then [n]
    else if n < 0x100 then [0x81] + BigEndian(n, 1)
    else if n < 0x1_0000 then [0x82] + BigEndian(n, 2)
    else if n < 0x100_0000 then [0x83] + BigEndian(n, 3)
    else [0x84] + BigEndian(n, 4)
  }

  /**
  Classes and tag numbers the format can carry, down the whole tree, and no node that encodes
  as 00 00, which marks the end of indefinite contents.
  */
  predicate Valid(n: Node)
    decreases n, 0
  {
    && n.cls < 4 && n.num < 0x1000_0000 && BodyValid(n.body)
    && !(n.cls == 0 && !n.constructed && n.num == 0 && (n.body == Octets([]) || n.body == Kids([])))
  }

  predicate BodyValid(b: Body)
    decreases b, 0
  {
    match b
    case Octets(_) => true
    case Kids(kids) => forall n <- kids :: Valid(n)
    case Wrapped(_, kids) => forall n <- kids :: Valid(n)
  }

  predicate AllValid(ns: seq<Node>) { forall n <- ns :: Valid(n) }

  function Encode(n: Node): (r: seq<Byte>)
    requires Valid(n)
    ensures |r| >= 2
    decreases n, 1
  {
    Header(n) + Contents(n.body)
  }

  function Header(n: Node): (r: seq<Byte>)
    requires Valid(n)
    ensures |r| >= 2
    decreases n, 0
  {
    Identifier(n) + Length(|Contents(n.body)|)
  }

  function Contents(b: Body): seq<Byte>
    requires BodyValid(b)
    decreases b, 0
  {
    match b
    case Octets(bytes) => bytes
    case Kids(kids) => EncodeAll(kids)
    case Wrapped(unused, kids) => [unused] + EncodeAll(kids)
  }

  function EncodeAll(ns: seq<Node>): (r: seq<Byte>)
    requires AllValid(ns)
    ensures |r| >= 2 * |ns|
    decreases ns, 0
  {
    if ns == [] then [] else Encode(ns[0]) + EncodeAll(ns[1..])
  }

  // ----- Reading one header back --------------------------------------------------------------

  /** The bytes `s` are in memory at `p`. */
  ghost predicate At(mem: Memory, p: int, s: seq<Byte>) {
    forall i | 0 <= i < |s| :: mem(p + i) == s[i]
  }

  lemma AtConcat(mem: Memory, p: int, a: seq<Byte>, b: seq<Byte>)
    ensures At(mem, p, a + b) <==> At(mem, p, a) && At(mem, p + |a|, b)
  {
    if At(mem, p, a + b) {
      forall i | 0 <= i < |b| ensures mem(p + |a| + i) == b[i] {
        assert (a + b)[|a| + i] == b[i] && mem(p + (|a| + i)) == (a + b)[|a| + i];
      }
      assert forall i | 0 <= i < |a| :: (a + b)[i] == a[i];
    }
    if At(mem, p, a) && At(mem, p + |a|, b) {
      forall i | 0 <= i < |a + b| ensures mem(p + i) == (a + b)[i] {
        if i >= |a| {
          assert mem(p + |a| + (i - |a|)) == b[i - |a|];
        }
      }
    }
  }

  lemma AtLast(mem: Memory, p: int, a: seq<Byte>, x: Byte)
    requires At(mem, p, a + [x])
    ensures At(mem, p, a) && mem(p + |a|) == x
  {
    AtConcat(mem, p, a, [x]);
    assert mem(p + |a| + 0) == [x][0];
  }

  lemma AtFirst(mem: Memory, p: int, s: seq<Byte>)
    requires At(mem, p, s) && s != []
    ensures mem(p) == s[0]
  {
    assert mem(p + 0) == s[0];
  }

  lemma {:induction false} MarkedLength(n: nat)
    ensures n < 0x80 ==> |Marked(n)| == 1
    ensures n < 0x4000 ==> |Marked(n)| <= 2
    ensures n < 0x20_0000 ==> |Marked(n)| <= 3
    decreases n
  {
    if n >= 128 && n < 0x20_0000 {
      MarkedLength(n / 128);
    }
  }

  /** Marked digits are accumulated, and reading goes on. */
  lemma {:induction false} ReadMarked(mem: Memory, p: int, end: int, n: nat)
    requires At(mem, p + 1, Marked(n)) && |Marked(n)| <= 3 && p + |Marked(n)| < end
    ensures HighTag(mem, p, end, 0, 0) == HighTag(mem, p + |Marked(n)|, end, |Marked(n)|, n)
    decreases n
  {
    hide At, HighTag;
    if n >= 128 {
      AtLast(mem, p + 1, Marked(n / 128), n % 128 + 128);
      ReadMarked(mem, p, end, n / 128);
      ReadDigit(mem, p + |Marked(n / 128)|, end, |Marked(n / 128)|, n / 128, n % 128, true);
    } else {
      AtFirst(mem, p + 1, Marked(n));
      ReadDigit(mem, p, end, 0, 0, n, true);
    }
  }

  /** One further octet of a tag number, for digit `d`. */
  lemma ReadDigit(mem: Memory, p: int, end: int, read: nat, num: nat, d: nat, marked: bool)
    requires read < 4 && d < 128 && mem(p + 1) == (if marked then d + 128 else d) && (marked ==> p + 1 < end)
    ensures HighTag(mem, p, end, read, num)
         == if marked then HighTag(mem, p + 1, end, read + 1, num * 128 + d) else Ok((num * 128 + d, p + 1))
  {
  }

  lemma ReadSeptets(mem: Memory, p: int, end: int, n: nat)
    requires n < 0x1000_0000 && At(mem, p + 1, Septets(n)) && p + |Septets(n)| <= end
    ensures HighTag(mem, p, end, 0, 0) == Ok((n, p + |Septets(n)|))
  {
    hide At, HighTag;
    if n >= 128 {
      MarkedLength(n / 128);
      AtLast(mem, p + 1, Marked(n / 128), n % 128);
      ReadMarked(mem, p, end, n / 128);
      ReadDigit(mem, p + |Marked(n / 128)|, end, |Marked(n / 128)|, n / 128, n % 128, false);
    } else {
      AtFirst(mem, p + 1, Septets(n));
      ReadDigit(mem, p, end, 0, 0, n, false);
    }
  }

  /** `n` fits in `count` octets. */
  predicate Fits(n: nat, count: nat)
    decreases count
  {
    if count == 0 then n == 0 else Fits(n / 256, count - 1)
  }

  lemma {:induction false} ReadBigEndian(mem: Memory, p: int, end: int, n: nat, count: nat, more: nat)
    requires At(mem, p + 1, BigEndian(n, count)) && Fits(n, count) && p + count <= end
    ensures LengthBytes(mem, p, end, count + more, 0) == LengthBytes(mem, p + count, end, more, n)
    decreases count
  {
    if count > 0 {
      AtLast(mem, p + 1, BigEndian(n / 256, count - 1), n % 256);
      ReadBigEndian(mem, p, end, n / 256, count - 1, more + 1);
    }
  }

  lemma ReadLengthBack(mem: Memory, q: int, end: int, n: nat)
    requires n < 0x1_0000_0000 && At(mem, q + 1, Length(n)) && q + |Length(n)| <= end
    ensures LengthAt(mem, q, end) == Ok((n, q + 1 + |Length(n)|))
  {
    hide At;
    var r := Length(n);
    AtFirst(mem, q + 1, r);
    if n >= 0x80 {
      var count := |r| - 1;
      AtConcat(mem, q + 1, [r[0]], BigEndian(n, count));
      assert [r[0]] + BigEndian(n, count) == r;
      ReadBigEndian(mem, q + 1, end, n, count, 0);
    }
  }

  lemma ReadIdentifier(mem: Memory, p: int, end: int, n: Node)
    requires n.cls < 4 && n.num < 0x1000_0000 && At(mem, p, Identifier(n)) && p + |Identifier(n)| - 1 <= end
    ensures TagNumber(mem, p, end) == Ok((n.num, p + |Identifier(n)| - 1))
    ensures mem(p) / 64 == n.cls && (mem(p) / 32 % 2 == 1) == n.constructed
    ensures mem(p) == 0 ==> n.cls == 0 && !n.constructed && n.num == 0
  {
    hide At, HighTag;
    var id := Identifier(n);
    AtFirst(mem, p, id);
    if n.num >= 31 {
      AtConcat(mem, p, [id[0]], Septets(n.num));
      ReadSeptets(mem, p, end, n.num);
    }
  }

  /** What the reader finds at an encoded header: nothing but the header is looked at. */
  lemma ReadHeader(mem: Memory, p: int, end: int, n: Node)
    requires Valid(n) && |Contents(n.body)| < 0x1_0000_0000
    requires At(mem, p, Header(n)) && p + |Header(n)| - 1 <= end
    ensures !EndMark(mem, p)
    ensures TagNumber(mem, p, end) == Ok((n.num, p + |Identifier(n)| - 1))
    ensures LengthAt(mem, p + |Identifier(n)| - 1, end) == Ok((|Contents(n.body)|, p + |Header(n)|))
    ensures Head(mem, p, end)
         == Ok(Cursor(p + |Header(n)|, |Contents(n.body)|, n.cls, n.constructed, n.num, Some(p), |Header(n)|))
    ensures SkipOne(mem, p, end)
         == if p + |Encode(n)| > end then Error(E_NOT_FOUND) else Ok(p + |Encode(n)|)
  {
    hide Septets, HighTag, LengthBytes;
    var len := |Contents(n.body)|;
    AtConcat(mem, p, Identifier(n), Length(len));
    ReadIdentifier(mem, p, end, n);
    ReadLengthBack(mem, p + |Identifier(n)| - 1, end, len);
    AtFirst(mem, p + |Identifier(n)|, Length(len));
  }

  // ----- Lists of items -----------------------------------------------------------------------

  lemma FirstItem(mem: Memory, p: int, end: int, ns: seq<Node>)
    requires AllValid(ns) && ns != [] && |EncodeAll(ns)| < 0x1_0000_0000
    requires At(mem, p, EncodeAll(ns)) && p + |EncodeAll(ns)| - 1 <= end
    ensures At(mem, p, Encode(ns[0])) && At(mem, p + |Encode(ns[0])|, EncodeAll(ns[1..]))
    ensures |EncodeAll(ns)| == |Encode(ns[0])| + |EncodeAll(ns[1..])|
    ensures SkipOne(mem, p, end)
         == if p + |Encode(ns[0])| > end then Error(E_NOT_FOUND) else Ok(p + |Encode(ns[0])|)
    ensures Head(mem, p, end) == Ok(Onto(ns[0], p))
  {
    hide Head, SkipOne, Contents, Header, At, LengthAt, TagNumber;
    AtConcat(mem, p, Encode(ns[0]), EncodeAll(ns[1..]));
    AtConcat(mem, p, Header(ns[0]), Contents(ns[0].body));
    ReadHeader(mem, p, end, ns[0]);
  }

  /** The position of the item with index `k` is the end of the encodings before it. */
  lemma {:induction false} SkipTo(mem: Memory, p: int, end: int, ns: seq<Node>, k: nat) returns (q: int)
    requires AllValid(ns) && 1 <= k <= |ns| && |EncodeAll(ns)| < 0x1_0000_0000
    requires At(mem, p, EncodeAll(ns)) && p + |EncodeAll(ns)| - 1 <= end
    ensures q == p + |EncodeAll(ns[..k - 1])|
    ensures Skip(mem, p, end, k) == Ok(q) && At(mem, q, Encode(ns[k - 1]))
    ensures p <= q && q + |Encode(ns[k - 1])| <= p + |EncodeAll(ns)|
    decreases k
  {
    hide Head, SkipOne, Encode, Contents, Header, At, LengthAt, TagNumber;
    FirstItem(mem, p, end, ns);
    if k > 1 {
      q := SkipTo(mem, p + |Encode(ns[0])|, end, ns[1..], k - 1);
      PrefixLonger(ns, k - 1);
    } else {
      q := p;
    }
  }

  lemma PrefixLonger(ns: seq<Node>, n: nat)
    requires AllValid(ns) && 1 <= n <= |ns|
    ensures |EncodeAll(ns[..n])| == |Encode(ns[0])| + |EncodeAll(ns[1..][..n - 1])|
  {
    assert ns[1..][..n - 1] == ns[..n][1..];
  }

  /** An index past the last item is noticed when the last item has been skipped. */
  lemma {:induction false} SkipPast(mem: Memory, p: int, end: int, ns: seq<Node>, k: nat)
    requires AllValid(ns) && ns != [] && k > |ns| && |EncodeAll(ns)| < 0x1_0000_0000
    requires At(mem, p, EncodeAll(ns)) && end == p + |EncodeAll(ns)| - 1
    ensures Skip(mem, p, end, k) == Error(E_NOT_FOUND)
    decreases |ns|
  {
    hide Head, SkipOne, Encode, Contents, Header, At, LengthAt, TagNumber;
    FirstItem(mem, p, end, ns);
    if |ns| > 1 {
      SkipPast(mem, p + |Encode(ns[0])|, end, ns[1..], k - 1);
    } else {
      assert EncodeAll(ns[1..]) == [];
    }
  }

  // ----- Paths --------------------------------------------------------------------------------

  /** The children a path can step into: those of a BIT STRING only by index 1, others by any index. */
  predicate Steps(b: Body, num: nat, k: nat) {
    match b
    case Octets(_) => false
    case Kids(kids) => num != 3 && 1 <= k <= |kids|
    case Wrapped(_, kids) => num == 3 && k == 1 && kids != []
  }

  predicate IsPath(ns: seq<Node>, path: seq<nat>)
    decreases path
  {
    && path != [] && 1 <= path[0] <= |ns|
    && (|path| == 1 || PathInto(ns[path[0] - 1], path[1..]))
  }

  predicate PathInto(n: Node, path: seq<nat>)
    requires path != []
    decreases path
  {
    && !n.body.Octets? && Steps(n.body, n.num, path[0])
    && (|path| == 1 || PathInto(n.body.kids[path[0] - 1], path[1..]))
  }

  /** The subtree a path leads to. */
  function Select(n: Node, path: seq<nat>): Node
    requires path != [] ==> PathInto(n, path)
    decreases path
  {
    if path == [] then n else Select(n.body.kids[path[0] - 1], path[1..])
  }

  /** The reader's answer for node `n` when its encoding starts at `p`. */
  function Found(n: Node, p: int): Item
    requires Valid(n)
  {
    Item(n.cls + (if n.constructed then 4 else 0) + 8 * n.num,
         p + |Header(n)|, |Contents(n.body)|, Some(p), |Encode(n)|)
  }

  function Onto(n: Node, p: int): Cursor
    requires Valid(n)
  {
    Cursor(p + |Header(n)|, |Contents(n.body)|, n.cls, n.constructed, n.num, Some(p), |Header(n)|)
  }

  /** Where the children's encodings start inside the contents. */
  function KidsAt(n: Node, p: int): int
    requires Valid(n)
  {
    p + |Header(n)| + (if n.body.Wrapped? then 1 else 0)
  }

  lemma AtKids(mem: Memory, n: Node, p: int)
    requires Valid(n) && At(mem, p, Encode(n)) && !n.body.Octets?
    ensures AllValid(n.body.kids)
    ensures At(mem, KidsAt(n, p), EncodeAll(n.body.kids))
    ensures KidsAt(n, p) + |EncodeAll(n.body.kids)| == p + |Encode(n)|
  {
    AtConcat(mem, p, Header(n), Contents(n.body));
    if n.body.Wrapped? {
      AtConcat(mem, p + |Header(n)|, [n.body.unused], EncodeAll(n.body.kids));
    }
  }

  lemma HeadIs(mem: Memory, p: int, end: int, n: Node)
    requires Valid(n) && |Encode(n)| < 0x1_0000_0000 && At(mem, p, Encode(n)) && p + |Encode(n)| - 1 <= end
    ensures Head(mem, p, end) == Ok(Onto(n, p))
  {
    AtConcat(mem, p, Header(n), Contents(n.body));
    ReadHeader(mem, p, end, n);
  }

  lemma AdvanceIs(mem: Memory, end: int, c: Cursor, k: nat, parse: bool, q: int, c': Cursor)
    requires parse || c.num != 3
    requires Skip(mem, c.p, c.p + c.len - 1, k) == Ok(if c.num == 3 then q - 1 else q)
    requires Head(mem, q, end) == Ok(c')
    ensures Advance(mem, end, c, k, parse) == Ok((c', false))
  {
  }

  lemma FollowIs(mem: Memory, end: int, c: Cursor, path: seq<nat>, parse: bool, c': Cursor)
    requires path != [] && Advance(mem, end, c, path[0], parse) == Ok((c', false))
    ensures Follow(mem, end, c, path, parse) == Follow(mem, end, c', path[1..], parse)
  {
  }

  /** Where the skip of one step ends; in a BIT STRING, before the octet of unused bits is passed. */
  lemma SkipDown(mem: Memory, n: Node, kids: seq<Node>, p: int, k: nat) returns (q: int)
    requires Valid(n) && |Encode(n)| < 0x1_0000_0000 && At(mem, p, Encode(n))
    requires !n.body.Octets? && kids == n.body.kids && 1 <= k <= |kids|
    requires if n.num == 3 then n.body.Wrapped? && k == 1 else n.body.Kids?
    ensures AllValid(kids) && At(mem, q, Encode(kids[k - 1])) && p <= q && q + |Encode(kids[k - 1])| <= p + |Encode(n)|
    ensures Skip(mem, p + |Header(n)|, p + |Encode(n)| - 1, k) == Ok(if n.num == 3 then q - 1 else q)
  {
    hide Header, At, Contents, SkipOne;
    AtKids(mem, n, p);
    var start := KidsAt(n, p);
    assert |EncodeAll(kids)| < 0x1_0000_0000;
    q := SkipTo(mem, start, p + |Encode(n)| - 1, kids, k);
    if n.num == 3 {
      assert kids[..k - 1] == [] && q == start;
    }
  }

  /** One step of a path moves from a node to the child it names. */
  lemma StepDown(mem: Memory, end: int, n: Node, p: int, k: nat, parse: bool) returns (q: int)
    requires Valid(n) && |Encode(n)| < 0x1_0000_0000 && At(mem, p, Encode(n)) && p + |Encode(n)| - 1 <= end
    requires !n.body.Octets? && Steps(n.body, n.num, k) && (parse || n.num != 3)
    ensures AllValid(n.body.kids)
    ensures var kid := n.body.kids[k - 1];
            && At(mem, q, Encode(kid)) && p <= q && q + |Encode(kid)| <= p + |Encode(n)|
            && Advance(mem, end, Onto(n, p), k, parse) == Ok((Onto(kid, q), false))
  {
    hide EncodeAll, Contents, Header, Skip, Head, Advance, Follow, At;
    var kid := n.body.kids[k - 1];
    q := SkipDown(mem, n, n.body.kids, p, k);
    HeadIs(mem, q, end, kid);
    AdvanceIs(mem, end, Onto(n, p), k, parse, q, Onto(kid, q));
  }

  /** From a node the reader stands on, a path leads to the subtree's encoding, somewhere inside the node's. */
  lemma {:induction false} FollowSelects(mem: Memory, end: int, n: Node, p: int, path: seq<nat>, parse: bool) returns (q: int)
    requires Valid(n) && |Encode(n)| < 0x1_0000_0000 && At(mem, p, Encode(n)) && p + |Encode(n)| - 1 <= end
    requires path != [] ==> PathInto(n, path)
    requires parse || ThroughNoBits(n, path)
    ensures Valid(Select(n, path)) && At(mem, q, Encode(Select(n, path)))
    ensures p <= q && q + |Encode(Select(n, path))| <= p + |Encode(n)|
    ensures Follow(mem, end, Onto(n, p), path, parse) == Ok(Found(Select(n, path), q))
    decreases |path|
  {
    hide EncodeAll, Contents, Header, At, Advance, Skip, Head;
    q := p;
    if path != [] {
      var kid := n.body.kids[path[0] - 1];
      var r := StepDown(mem, end, n, p, path[0], parse);
      FollowIs(mem, end, Onto(n, p), path, parse, Onto(kid, r));
      q := FollowSelects(mem, end, kid, r, path[1..], parse);
    }
  }

  /** The path never steps into a BIT STRING. */
  predicate ThroughNoBits(n: Node, path: seq<nat>)
    requires path != [] ==> PathInto(n, path)
    decreases path
  {
    path != [] ==> n.num != 3 && ThroughNoBits(n.body.kids[path[0] - 1], path[1..])
  }

  // ----- The reader on whole inputs -----------------------------------------------------------

  function SelectIn(ns: seq<Node>, path: seq<nat>): Node
    requires IsPath(ns, path)
  {
    Select(ns[path[0] - 1], path[1..])
  }

  /** The first step of a path, on a list that may be followed by anything up to `len`. */
  lemma Enter(mem: Memory, p: int, len: nat, ns: seq<Node>, path: seq<nat>, parse: bool) returns (q: int)
    requires AllValid(ns) && At(mem, p, EncodeAll(ns)) && |EncodeAll(ns)| <= len < 0x1_0000_0000
    requires path != [] && 1 <= path[0] <= |ns|
    ensures var n := ns[path[0] - 1];
            && At(mem, q, Encode(n)) && p <= q && q + |Encode(n)| <= p + |EncodeAll(ns)|
            && ItemAt(mem, p, len, path, parse) == Follow(mem, p + len - 1, Onto(n, q), path[1..], parse)
  {
    hide Encode, EncodeAll, Contents, Header, At, Skip, Advance, Follow, Head;
    var n := ns[path[0] - 1];
    var c := Cursor(p, len, 0, false, 0, None, 0);
    q := SkipTo(mem, p, p + len - 1, ns, path[0]);
    HeadIs(mem, q, p + len - 1, n);
    AdvanceIs(mem, p + len - 1, c, path[0], parse, q, Onto(n, q));
    FollowIs(mem, p + len - 1, c, path, parse, Onto(n, q));
  }

  /**
  Main theorem: on the encoding of a list of trees, followed by anything, the reader's answer for a path is the
  subtree at that path: its packed tag, and the places and lengths of its contents and of its whole encoding.
  */
  lemma PathSelects(mem: Memory, p: int, len: nat, ns: seq<Node>, path: seq<nat>, parse: bool) returns (q: int)
    requires AllValid(ns) && At(mem, p, EncodeAll(ns)) && |EncodeAll(ns)| <= len < 0x1_0000_0000
    requires IsPath(ns, path) && (parse || ThroughNoBits(ns[path[0] - 1], path[1..]))
    ensures var n := SelectIn(ns, path);
            && Valid(n) && At(mem, q, Encode(n)) && p <= q && q + |Encode(n)| <= p + |EncodeAll(ns)|
            && ItemAt(mem, p, len, path, parse) == Ok(Found(n, q))
  {
    hide Encode, EncodeAll, Contents, Header, At, Skip, Advance, Follow, Head, ItemAt;
    var r := Enter(mem, p, len, ns, path, parse);
    q := FollowSelects(mem, p + len - 1, ns[path[0] - 1], r, path[1..], parse);
  }

  /** A node with children, but fewer than `k`. */
  predicate Short(n: Node, k: nat) {
    n.body.Kids? && n.num != 3 && n.body.kids != [] && k > |n.body.kids|
  }

  lemma StepPast(mem: Memory, end: int, n: Node, p: int, k: nat, parse: bool)
    requires Valid(n) && |Encode(n)| < 0x1_0000_0000 && At(mem, p, Encode(n)) && Short(n, k)
    ensures Advance(mem, end, Onto(n, p), k, parse) == Error(E_NOT_FOUND)
  {
    hide EncodeAll, Header, At, Head;
    AtKids(mem, n, p);
    SkipPast(mem, p + |Header(n)|, p + |Encode(n)| - 1, n.body.kids, k);
  }

  lemma {:induction false} FollowPast(mem: Memory, end: int, n: Node, p: int, path: seq<nat>, k: nat, parse: bool)
    requires Valid(n) && |Encode(n)| < 0x1_0000_0000 && At(mem, p, Encode(n)) && p + |Encode(n)| - 1 <= end
    requires path != [] ==> PathInto(n, path)
    requires (parse || ThroughNoBits(n, path)) && Short(Select(n, path), k)
    ensures Follow(mem, end, Onto(n, p), path + [k], parse) == Error(E_NOT_FOUND)
    decreases |path|
  {
    hide EncodeAll, Contents, Header, Skip, Head, Advance, At;
    if path == [] {
      StepPast(mem, end, n, p, k, parse);
      assert path + [k] == [k];
    } else {
      var kid := n.body.kids[path[0] - 1];
      var r := StepDown(mem, end, n, p, path[0], parse);
      assert (path + [k])[1..] == path[1..] + [k] && (path + [k])[0] == path[0];
      FollowIs(mem, end, Onto(n, p), path + [k], parse, Onto(kid, r));
      FollowPast(mem, end, kid, r, path[1..], k, parse);
    }
  }

  /** An index past the last child of a node that has children is reported as not found. */
  lemma PathPast(mem: Memory, p: int, len: nat, ns: seq<Node>, path: seq<nat>, k: nat, parse: bool)
    requires AllValid(ns) && At(mem, p, EncodeAll(ns)) && |EncodeAll(ns)| <= len < 0x1_0000_0000
    requires IsPath(ns, path) && (parse || ThroughNoBits(ns[path[0] - 1], path[1..]))
    requires Short(SelectIn(ns, path), k)
    ensures ItemAt(mem, p, len, path + [k], parse) == Error(E_NOT_FOUND)
  {
    hide Encode, EncodeAll, Contents, Header, Skip, Head, Advance, Follow, At;
    assert (path + [k])[1..] == path[1..] + [k] && (path + [k])[0] == path[0];
    var r := Enter(mem, p, len, ns, path + [k], parse);
    FollowPast(mem, p + len - 1, ns[path[0] - 1], r, path[1..], k, parse);
  }

  lemma {:induction false} FollowBits(mem: Memory, end: int, n: Node, p: int, path: seq<nat>) returns (q: int)
    requires Valid(n) && |Encode(n)| < 0x1_0000_0000 && At(mem, p, Encode(n)) && p + |Encode(n)| - 1 <= end
    requires path != [] ==> PathInto(n, path)
    requires ThroughNoBits(n, path)
    requires Select(n, path).num == 3
    ensures var s := Select(n, path);
            && Valid(s) && At(mem, q, Contents(s.body))
            && (Contents(s.body) != [] ==>
                  var r := Follow(mem, end, Onto(n, p), path + [1], false);
                  r.Ok? && r.value.data == q + 1 && r.value.len == |Contents(s.body)| - 1)
    decreases |path|
  {
    hide EncodeAll, Header, At, Head;
    if path == [] {
      AtConcat(mem, p, Header(n), Contents(n.body));
      q := p + |Header(n)|;
      assert path + [1] == [1];
    } else {
      var kid := n.body.kids[path[0] - 1];
      var r := StepDown(mem, end, n, p, path[0], false);
      FollowIs(mem, end, Onto(n, p), path + [1], false, Onto(kid, r));
      assert (path + [1])[1..] == path[1..] + [1];
      q := FollowBits(mem, end, kid, r, path[1..]);
    }
  }

  /** Without parsing, a step into a BIT STRING yields its contents after the octet that counts unused bits. */
  lemma PathToBits(mem: Memory, p: int, len: nat, ns: seq<Node>, path: seq<nat>) returns (q: int)
    requires AllValid(ns) && At(mem, p, EncodeAll(ns)) && |EncodeAll(ns)| <= len < 0x1_0000_0000
    requires IsPath(ns, path) && ThroughNoBits(ns[path[0] - 1], path[1..]) && SelectIn(ns, path).num == 3
    ensures var s := SelectIn(ns, path);
            && Valid(s) && At(mem, q, Contents(s.body))
            && (Contents(s.body) != [] ==>
                  var r := ItemAt(mem, p, len, path + [1], false);
                  r.Ok? && r.value.data == q + 1 && r.value.len == |Contents(s.body)| - 1)
  {
    hide Encode, EncodeAll, Contents, Header, Skip, Head, Advance, Follow, At;
    assert (path + [1])[1..] == path[1..] + [1] && (path + [1])[0] == path[0];
    var r := Enter(mem, p, len, ns, path + [1], false);
    q := FollowBits(mem, p + len - 1, ns[path[0] - 1], r, path[1..]);
  }

  // ----- Taking items off a list --------------------------------------------------------------

  /** The items that `count` calls of the list reader yield, and what is left of the list. */
  function Collect(mem: Memory, p: int, len: nat, count: nat): Outcome<(seq<Item>, (int, nat))>
    decreases count
  {
    if count == 0 then Ok(([], (p, len)))
    else match Next(mem, p, len)
      case Error(code) => Error(code)
      case Ok((x, (p', len'))) =>
        match Collect(mem, p', len', count - 1)
        case Error(code) => Error(code)
        case Ok((xs, rest)) => Ok(([x] + xs, rest))
  }

  /** The answers for a list of nodes laid out one after the other from `p`. */
  function FoundAll(ns: seq<Node>, p: int): (r: seq<Item>)
    requires AllValid(ns)
    ensures |r| == |ns|
  {
    if ns == [] then [] else [Found(ns[0], p)] + FoundAll(ns[1..], p + |Encode(ns[0])|)
  }

  lemma NextTakes(mem: Memory, p: int, len: nat, ns: seq<Node>)
    requires AllValid(ns) && At(mem, p, EncodeAll(ns)) && len == |EncodeAll(ns)| < 0x1_0000_0000 && ns != []
    ensures Next(mem, p, len) == Ok((Found(ns[0], p), (p + |Encode(ns[0])|, |EncodeAll(ns[1..])|)))
    ensures At(mem, p + |Encode(ns[0])|, EncodeAll(ns[1..]))
  {
    hide EncodeAll, Contents, Header, Head, Advance, At, SkipOne;
    FirstItem(mem, p, p + len - 1, ns);
    var c := Cursor(p, len, 0, false, 0, None, 0);
    AdvanceIs(mem, p + len - 1, c, 1, true, p, Onto(ns[0], p));
    FollowIs(mem, p + len - 1, c, [1], true, Onto(ns[0], p));
    assert ItemAt(mem, p, len, [1], true) == Ok(Found(ns[0], p));
  }

  /** Repeated calls take the contents apart into exactly the children, until nothing is left. */
  lemma {:induction false} CollectsAll(mem: Memory, p: int, len: nat, ns: seq<Node>)
    requires AllValid(ns) && At(mem, p, EncodeAll(ns)) && len == |EncodeAll(ns)| < 0x1_0000_0000
    ensures Collect(mem, p, len, |ns|) == Ok((FoundAll(ns, p), (p + len, 0)))
    decreases |ns|
  {
    hide Encode, Contents, Header, Skip, Head, Advance, Next, At;
    if ns != [] {
      NextTakes(mem, p, len, ns);
      CollectsAll(mem, p + |Encode(ns[0])|, |EncodeAll(ns[1..])|, ns[1..]);
    }
  }
}
