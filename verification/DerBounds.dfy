/** Where what the DER reader delivers lies. */
module DerBounds {
  import opened Wrappers
  import opened Asn1

  // The reader checks that an item starts where there is something, not that it ends there. Whether the delivered bytes are
  // bytes of the input depends on the lengths that the headers on the way announce, for every memory.

  /** What a step finds ends within the item it was made in. */
  predicate EndsWithin(c: Cursor, c': Cursor) { c'.p + c'.len <= c.p + c.len }

  /** On every step of the path. */
  predicate Nested(mem: Memory, end: int, c: Cursor, path: seq<nat>, parse: bool)
    decreases |path|
  {
    path != [] ==>
      match Advance(mem, end, c, path[0], parse)
      case Error(_) => true
      case Ok((c', stop)) => EndsWithin(c, c') && (stop || Nested(mem, end, c', path[1..], parse))
  }

  function StartOf(p: int, len: nat): Cursor { Cursor(p, len, 0, false, 0, None, 0) }

  lemma {:induction false} SkipForward(mem: Memory, p: int, end: int, k: nat)
    ensures Skip(mem, p, end, k).Ok? ==> Skip(mem, p, end, k).value >= p
    decreases k
  {
    if k > 1 && SkipOne(mem, p, end).Ok? {
      SkipForward(mem, SkipOne(mem, p, end).value, end, k - 1);
    }
  }

  /** A cursor's header, if it has one, lies before its contents. */
  predicate Headed(c: Cursor) { c.raw != None ==> c.raw.value + c.head <= c.p }

  /** A step never goes back. */
  lemma StepForward(mem: Memory, end: int, c: Cursor, k: nat, parse: bool)
    requires Headed(c) && (c.raw == None ==> c.num == 0)
    ensures var r := Advance(mem, end, c, k, parse);
            r.Ok? ==> var (c', stop) := r.value;
                      c'.p >= c.p && Headed(c') && c'.raw != None
                      && (if stop then c'.raw == c.raw else c'.raw.value >= c.p)
  {
    hide TagNumber, LengthAt, EndMark, PastZeros;
    SkipForward(mem, c.p, c.p + c.len - 1, k);
  }

  /**
  If every header on the way announces an end within the item around it, then what is delivered, contents and raw bytes,
  are bytes of the input.
  */
  lemma {:induction false} NestedInside(mem: Memory, end: int, c: Cursor, path: seq<nat>, parse: bool, p: int, len: nat)
    requires Nested(mem, end, c, path, parse) && len < 0x1_0000_0000
    requires Headed(c) && (c.raw == None ==> c.num == 0 && c.head == 0)
    requires p <= c.p && c.p + c.len <= p + len && (c.raw != None ==> p <= c.raw.value)
    ensures var r := Follow(mem, end, c, path, parse);
            r.Ok? ==>
              var x := r.value;
              p <= x.data && x.data + x.len <= p + len
              && (x.raw != None ==> p <= x.raw.value && x.raw.value + x.rawLen <= p + len)
    decreases |path|
  {
    hide Advance;
    if path != [] && Advance(mem, end, c, path[0], parse).Ok? {
      var (c', stop) := Advance(mem, end, c, path[0], parse).value;
      StepForward(mem, end, c, path[0], parse);
      if !stop { NestedInside(mem, end, c', path[1..], parse, p, len); }
    }
  }

  lemma ItemInside(mem: Memory, p: int, len: nat, path: seq<nat>, parse: bool)
    requires Nested(mem, p + len - 1, StartOf(p, len), path, parse) && len < 0x1_0000_0000
    ensures var r := ItemAt(mem, p, len, path, parse);
            r.Ok? ==>
              var x := r.value;
              p <= x.data && x.data + x.len <= p + len
              && (x.raw != None ==> p <= x.raw.value && x.raw.value + x.rawLen <= p + len)
  {
    NestedInside(mem, p + len - 1, StartOf(p, len), path, parse, p, len);
  }

  // ----- The condition is exact ---------------------------------------------------------------

  /** What the reader delivers for the first `i` steps of the path. */
  function Delivered(mem: Memory, end: int, c: Cursor, path: seq<nat>, parse: bool, i: nat): Outcome<Item>
    requires i <= |path|
  {
    Follow(mem, end, c, path[..i], parse)
  }

  /** Of two beginnings of the path, one step apart, the longer delivers bytes that end within those of the shorter. */
  predicate Contained(mem: Memory, end: int, c: Cursor, path: seq<nat>, parse: bool, i: nat)
    requires i < |path|
  {
    var outer, inner := Delivered(mem, end, c, path, parse, i), Delivered(mem, end, c, path, parse, i + 1);
    inner.Ok? ==> outer.Ok? && inner.value.data + inner.value.len <= outer.value.data + outer.value.len
  }

  lemma {:induction false} NestedExactly(mem: Memory, end: int, c: Cursor, path: seq<nat>, parse: bool)
    ensures Nested(mem, end, c, path, parse) <==> forall i | 0 <= i < |path| :: Contained(mem, end, c, path, parse, i)
    decreases |path|
  {
    hide Advance;
    if path != [] {
      DeliveredNone(mem, end, c, path, parse);
      DeliveredFirst(mem, end, c, path, parse, 1);
      match Advance(mem, end, c, path[0], parse)
      case Error(_) =>
        forall i | 0 <= i < |path| ensures Contained(mem, end, c, path, parse, i) {
          DeliveredFirst(mem, end, c, path, parse, i + 1);
        }
      case Ok((c', stop)) =>
        assert Contained(mem, end, c, path, parse, 0) <==> EndsWithin(c, c');
        if stop {
          forall i | 0 < i < |path| ensures Contained(mem, end, c, path, parse, i) {
            DeliveredFirst(mem, end, c, path, parse, i);
            DeliveredFirst(mem, end, c, path, parse, i + 1);
          }
        } else {
          NestedExactly(mem, end, c', path[1..], parse);
          forall i | 0 < i < |path|
            ensures Contained(mem, end, c, path, parse, i) == Contained(mem, end, c', path[1..], parse, i - 1)
          {
            Later(mem, end, c, path, parse, i);
            Later(mem, end, c, path, parse, i + 1);
          }
          assert forall j | 0 <= j < |path[1..]| :: Contained(mem, end, c', path[1..], parse, j)
                                                    == Contained(mem, end, c, path, parse, j + 1);
        }
    }
  }

  lemma DeliveredNone(mem: Memory, end: int, c: Cursor, path: seq<nat>, parse: bool)
    ensures Delivered(mem, end, c, path, parse, 0) == Ok(ItemOf(c))
  {
  }

  lemma DeliveredFirst(mem: Memory, end: int, c: Cursor, path: seq<nat>, parse: bool, i: nat)
    requires 0 < i <= |path|
    ensures match Advance(mem, end, c, path[0], parse)
            case Error(code) => Delivered(mem, end, c, path, parse, i) == Error(code)
            case Ok((c', stop)) => (stop || i == 1) ==> Delivered(mem, end, c, path, parse, i) == Ok(ItemOf(c'))
  {
    hide Advance;
    assert path[..i][0] == path[0];
    if i == 1 && Advance(mem, end, c, path[0], parse).Ok? {
      var c' := Advance(mem, end, c, path[0], parse).value.0;
      assert path[..i][1..] == [];
      assert Follow(mem, end, c', [], parse) == Ok(ItemOf(c'));
    }
  }

  lemma Later(mem: Memory, end: int, c: Cursor, path: seq<nat>, parse: bool, i: nat)
    requires 0 < i <= |path|
    requires Advance(mem, end, c, path[0], parse).Ok? && !Advance(mem, end, c, path[0], parse).value.1
    ensures Delivered(mem, end, c, path, parse, i)
         == Delivered(mem, end, Advance(mem, end, c, path[0], parse).value.0, path[1..], parse, i - 1)
  {
    hide Advance;
    assert path[..i][1..] == path[1..][..i - 1];
  }

  /** It happens: four bytes of which the second item announces 127 more. */
  lemma Overlong(mem: Memory)
    requires mem(0) == 0x30 && mem(1) == 2 && mem(2) == 0x30 && mem(3) == 0x7F
    ensures var r := ItemAt(mem, 0, 4, [1, 1], true);
            r.Ok? && r.value.data == 4 && r.value.len == 127 && !Nested(mem, 3, StartOf(0, 4), [1, 1], true)
  {
    var c := StartOf(0, 4);
    var c1 := Cursor(2, 2, 0, true, 16, Some(0), 2);
    var c2 := Cursor(4, 127, 0, true, 16, Some(2), 2);
    assert Advance(mem, 3, c, 1, true) == Ok((c1, false));
    assert Advance(mem, 3, c1, 1, true) == Ok((c2, false));
    assert [1, 1][1..] == [1] && [1][1..] == [];
    assert Follow(mem, 3, c1, [1], true) == Follow(mem, 3, c2, [], true);
    assert !Nested(mem, 3, c1, [1], true);
  }
}
