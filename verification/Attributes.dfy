/** The attribute lists of PKCS #11 objects and search templates: p11.c's get, set and copy. */
module Attributes {
  import opened Wrappers

  const CKA_CLASS: nat := 0
  const CKA_TOKEN: nat := 1
  const CKA_PRIVATE: nat := 2
  const CKA_LABEL: nat := 3
  const CKA_VALUE: nat := 0x11
  const CKA_OBJECT_ID: nat := 0x12
  const CKA_ID: nat := 0x102
  const CKA_VALUE_LEN: nat := 0x161

  const CKR_OK: nat := 0
  const CKR_ARGUMENTS_BAD: nat := 7
  const CKR_ATTRIBUTE_TYPE_INVALID: nat := 0x12

  const MAX_OBJECT_SIZE: nat := 32000
  const MAX_ATTRIBUTE_SIZE: nat := 64000

  // The length of an attribute is the length of its value; an empty value may be a null pointer.
  datatype Attr = Attr(kind: nat, value: seq<Byte>)

  // ---- CK_ULONG values as they lie in memory: eight bytes, least significant first

  function LittleEndian(n: nat, width: nat): (bytes: seq<Byte>)
    ensures |bytes| == width
  {
    if width == 0 then [] else [n % 256] + LittleEndian(n / 256, width - 1)
  }

  function Ulong(n: nat): (bytes: seq<Byte>)
    ensures |bytes| == 8
  {
    LittleEndian(n, 8)
  }

  function Flag(b: bool): seq<Byte> { if b then [1] else [0] }

  function Power(width: nat): (p: nat)
    ensures p > 0
  {
    if width == 0 then 1 else 256 * Power(width - 1)
  }

  lemma {:induction false} LittleEndianInjective(m: nat, n: nat, width: nat)
    requires m < Power(width) && n < Power(width)
    requires LittleEndian(m, width) == LittleEndian(n, width)
    ensures m == n
  {
    if width > 0 {
      var a, b := LittleEndian(m, width), LittleEndian(n, width);
      assert a[0] == m % 256 && b[0] == n % 256;
      assert a[1..] == LittleEndian(m / 256, width - 1) && b[1..] == LittleEndian(n / 256, width - 1);
      LittleEndianInjective(m / 256, n / 256, width - 1);
    }
  }

  // Two 64-bit values are the same exactly when memcmp finds no difference.
  lemma UlongInjective(m: nat, n: nat)
    requires m < 0x1_0000_0000_0000_0000 && n < 0x1_0000_0000_0000_0000
    ensures Ulong(m) == Ulong(n) <==> m == n
  {
    if Ulong(m) == Ulong(n) {
      assert Power(8) == 0x1_0000_0000_0000_0000 by {
        assert Power(2) == 0x1_0000;
        assert Power(4) == 0x1_0000_0000;
        assert Power(6) == 0x1_0000_0000_0000;
      }
      LittleEndianInjective(m, n, 8);
    }
  }

  // ---- What the store holds

  // Where the first attribute of a kind stands; the length of the list when there is none.
  function Position(attrs: seq<Attr>, kind: nat): (i: nat)
    ensures i <= |attrs|
    ensures forall j | 0 <= j < i :: attrs[j].kind != kind
    ensures i < |attrs| ==> attrs[i].kind == kind
  {
    if attrs == [] || attrs[0].kind == kind then 0 else 1 + Position(attrs[1..], kind)
  }

  // The value of the first attribute of a kind.
  function Lookup(attrs: seq<Attr>, kind: nat): Option<seq<Byte>> {
    var i := Position(attrs, kind);
    if i < |attrs| then Some(attrs[i].value) else None
  }

  // The list with the first attribute of a kind overwritten.
  function Store(attrs: seq<Attr>, kind: nat, value: seq<Byte>): (r: seq<Attr>)
    ensures |r| == |attrs|
    ensures forall i | 0 <= i < |attrs| :: r[i].kind == attrs[i].kind
  {
    var i := Position(attrs, kind);
    if i < |attrs| then attrs[i := Attr(kind, value)] else attrs
  }

  // A set with its answer: the list afterwards and the return code.
  function Update(attrs: seq<Attr>, kind: nat, value: seq<Byte>): (r: (seq<Attr>, nat))
    ensures |r.0| == |attrs|
    ensures r.1 != CKR_OK ==> r.0 == attrs
    ensures forall i | 0 <= i < |attrs| :: r.0[i].kind == attrs[i].kind
  {
    if |value| > MAX_ATTRIBUTE_SIZE then (attrs, CKR_ARGUMENTS_BAD)
    else if Lookup(attrs, kind) == None then (attrs, CKR_ATTRIBUTE_TYPE_INVALID)
    else (Store(attrs, kind, value), CKR_OK)
  }

  // A list of sets, stopping at the first that fails.
  function UpdateAll(attrs: seq<Attr>, sets: seq<Attr>): (r: (seq<Attr>, nat))
    ensures |r.0| == |attrs|
    decreases |sets|
  {
    if sets == [] then (attrs, CKR_OK)
    else
      var (next, rv) := Update(attrs, sets[0].kind, sets[0].value);
      if rv != CKR_OK then (next, rv) else UpdateAll(next, sets[1..])
  }

  predicate Copyable(template: seq<Attr>) {
    |template| <= MAX_OBJECT_SIZE && forall i | 0 <= i < |template| :: |template[i].value| <= MAX_ATTRIBUTE_SIZE
  }

  // ---- The three loops

  method GetAttributeValue(attrs: seq<Attr>, kind: nat) returns (value: Option<seq<Byte>>, rv: nat)
    ensures value == Lookup(attrs, kind)
    ensures rv == if value == None then CKR_ATTRIBUTE_TYPE_INVALID else CKR_OK
  {
    for i := 0 to |attrs|
      invariant forall j | 0 <= j < i :: attrs[j].kind != kind
    {
      if attrs[i].kind == kind {
        return Some(attrs[i].value), CKR_OK;
      }
    }
    return None, CKR_ATTRIBUTE_TYPE_INVALID;
  }

  method SetAttributeValue(attrs: seq<Attr>, kind: nat, value: seq<Byte>) returns (after: seq<Attr>, rv: nat)
    ensures (after, rv) == Update(attrs, kind, value)
  {
    after := attrs;
    if |value| > MAX_ATTRIBUTE_SIZE {
      return after, CKR_ARGUMENTS_BAD;
    }
    for i := 0 to |attrs|
      invariant forall j | 0 <= j < i :: attrs[j].kind != kind
      invariant after == attrs
    {
      if attrs[i].kind == kind {
        after := after[i := Attr(kind, value)];
        return after, CKR_OK;
      }
    }
    return after, CKR_ATTRIBUTE_TYPE_INVALID;
  }

  // What was copied so far is kept when a value is too long; the caller discards it.
  method CopyObject(template: seq<Attr>) returns (copy: seq<Attr>, rv: nat)
    ensures rv == CKR_OK || rv == CKR_ARGUMENTS_BAD
    ensures rv == CKR_OK <==> Copyable(template)
    ensures rv == CKR_OK <==> |template| <= MAX_OBJECT_SIZE && forall a <- template :: |a.value| <= MAX_ATTRIBUTE_SIZE
    ensures rv == CKR_OK ==> copy == template
    ensures copy <= template
    ensures forall i | 0 <= i < |copy| :: |copy[i].value| <= MAX_ATTRIBUTE_SIZE
  {
    copy := [];
    if |template| > MAX_OBJECT_SIZE {
      return copy, CKR_ARGUMENTS_BAD;
    }
    for i := 0 to |template|
      invariant copy == template[..i]
      invariant forall j | 0 <= j < i :: |template[j].value| <= MAX_ATTRIBUTE_SIZE
    {
      if |template[i].value| > MAX_ATTRIBUTE_SIZE {
        return copy, CKR_ARGUMENTS_BAD;
      }
      copy := copy + [template[i]];
    }
    return copy, CKR_OK;
  }

  // ---- What they promise together

  // A value that was set is read back and every other kind reads as before; a refused set changes nothing.
  lemma UpdateReads(attrs: seq<Attr>, kind: nat, value: seq<Byte>, other: nat)
    ensures var (after, rv) := Update(attrs, kind, value);
            rv == (if |value| > MAX_ATTRIBUTE_SIZE then CKR_ARGUMENTS_BAD
                   else if forall i | 0 <= i < |attrs| :: attrs[i].kind != kind then CKR_ATTRIBUTE_TYPE_INVALID
                   else CKR_OK)
            && (Lookup(attrs, kind) != None <==> exists i :: 0 <= i < |attrs| && attrs[i].kind == kind)
            && Lookup(after, other) == if rv == CKR_OK && other == kind then Some(value) else Lookup(attrs, other)
  {
  }

  // The value the last set of a kind gives it.
  function LastSet(sets: seq<Attr>, kind: nat): Option<seq<Byte>> {
    if sets == [] then None
    else
      var later := LastSet(sets[1..], kind);
      if later != None then later
      else if sets[0].kind == kind then Some(sets[0].value)
      else None
  }

  // The last of several sets of one kind wins; kinds that are not set read as before.
  lemma {:induction false} UpdateAllReads(attrs: seq<Attr>, sets: seq<Attr>, kind: nat)
    requires UpdateAll(attrs, sets).1 == CKR_OK
    ensures Lookup(UpdateAll(attrs, sets).0, kind)
         == if LastSet(sets, kind) != None then LastSet(sets, kind) else Lookup(attrs, kind)
    decreases |sets|
  {
    if sets != [] {
      UpdateReads(attrs, sets[0].kind, sets[0].value, kind);
      UpdateAllReads(Update(attrs, sets[0].kind, sets[0].value).0, sets[1..], kind);
    }
  }

  // Several sets succeed exactly when each value is short enough and each kind is in the list.
  lemma {:induction false} UpdateAllSucceeds(attrs: seq<Attr>, sets: seq<Attr>)
    ensures UpdateAll(attrs, sets).1 == CKR_OK
       <==> forall i | 0 <= i < |sets| :: |sets[i].value| <= MAX_ATTRIBUTE_SIZE && Lookup(attrs, sets[i].kind) != None
    decreases |sets|
  {
    if sets != [] {
      var (next, rv) := Update(attrs, sets[0].kind, sets[0].value);
      var rest := sets[1..];
      UpdateAllSucceeds(next, rest);
      forall i | 1 <= i < |sets|
        ensures rest[i - 1] == sets[i]
        ensures Lookup(next, sets[i].kind) != None <==> Lookup(attrs, sets[i].kind) != None
      {
        UpdateReads(attrs, sets[0].kind, sets[0].value, sets[i].kind);
      }
    }
  }
}
