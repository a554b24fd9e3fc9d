/** A slot's growable object table: allocation, cleaning, filling from a template, search by class and id. */
module ObjectTable {
  import opened Wrappers
  import opened Attributes

  // `addedIn` is history: the card epoch of the slot when the entry was taken into use.
  datatype Object = Object(inUse: bool, cached: bool, attrs: seq<Attr>, hidden: bool, addedIn: nat)

  const BlankObject := Object(false, false, [], false, 0)
  const ObjectStep := [BlankObject, BlankObject, BlankObject]

  // ---- Specification

  // The first unused entry; the size of the table when all are in use.
  function FreeEntry(objects: seq<Object>): (i: nat)
    ensures i <= |objects|
    ensures forall j | 0 <= j < i :: objects[j].inUse
    ensures i < |objects| ==> !objects[i].inUse
  {
    if objects == [] || !objects[0].inUse then 0 else 1 + FreeEntry(objects[1..])
  }

  function Allocate(objects: seq<Object>, epoch: nat): (r: (seq<Object>, nat))
    ensures 1 <= r.1 <= |r.0| && |objects| <= |r.0|
  {
    var i := FreeEntry(objects);
    var table := if i == |objects| then objects + ObjectStep else objects;
    (table[i := table[i].(inUse := true, addedIn := epoch)], i + 1)
  }

  // The templates of cal.h: kinds without values.
  function Template(kinds: seq<nat>): (r: seq<Attr>)
    ensures |r| == |kinds|
    ensures forall i | 0 <= i < |kinds| :: r[i] == Attr(kinds[i], [])
  {
    seq(|kinds|, i requires 0 <= i < |kinds| => Attr(kinds[i], []))
  }

  function Zeros(n: nat): (r: seq<nat>)
    ensures |r| == n && forall i | 0 <= i < n :: r[i] == 0
  {
    seq(n, _ => 0)
  }

  // What an object is to be filled with, and whether it counts as read and is shown by unlabelled searches.
  datatype Filling = Filling(kinds: seq<nat>, sets: seq<Attr>, cached: bool, hidden: bool)

  // The attribute list a new object ends up with, and the answer.
  function Filled(f: Filling): (r: (seq<Attr>, nat))
    ensures |r.0| == |f.kinds|
  {
    if |f.kinds| > MAX_OBJECT_SIZE then (Template(Zeros(|f.kinds|)), CKR_ARGUMENTS_BAD)
    else UpdateAll(Template(f.kinds), f.sets)
  }

  function AddFilled(objects: seq<Object>, f: Filling, epoch: nat): (r: (seq<Object>, nat, nat))
    ensures 1 <= r.1 <= |r.0| && |objects| <= |r.0|
  {
    var (table, h) := Allocate(objects, epoch);
    var (attrs, rv) := Filled(f);
    var o := table[h - 1].(attrs := attrs);
    (table[h - 1 := if rv == CKR_OK && f.cached then o.(cached := true, hidden := f.hidden) else o], h, rv)
  }

  // p11_add_slot_object: a certificate or key that is listed now and read later.
  function Listed(kinds: seq<nat>, token: bool, objClass: nat, id: nat, private: bool): Filling {
    Filling(kinds,
            [Attr(CKA_TOKEN, Flag(token)), Attr(CKA_CLASS, Ulong(objClass)), Attr(CKA_ID, Ulong(id)), Attr(CKA_PRIVATE, Flag(private))],
            false, false)
  }

  // p11_add_slot_ID_object: a data object with its value.
  function Data(kinds: seq<nat>, token: bool, objClass: nat, private: bool, name: seq<Byte>, value: seq<Byte>,
                objectId: seq<Byte>, hidden: bool): Filling
  {
    Filling(kinds,
            [Attr(CKA_TOKEN, Flag(token)), Attr(CKA_CLASS, Ulong(objClass)), Attr(CKA_PRIVATE, Flag(private)),
             Attr(CKA_LABEL, name), Attr(CKA_VALUE, value), Attr(CKA_VALUE_LEN, Ulong(|value|)), Attr(CKA_OBJECT_ID, objectId)],
            true, hidden)
  }

  function Clean(o: Object): Object {
    if |o.attrs| > MAX_OBJECT_SIZE then o else o.(inUse := false, cached := false, attrs := [], hidden := false)
  }

  function CleanAll(objects: seq<Object>): (r: seq<Object>)
    ensures |r| == |objects|
    ensures forall i | 0 <= i < |r| :: r[i] == Clean(objects[i])
  {
    seq(|objects|, i requires 0 <= i < |objects| => Clean(objects[i]))
  }

  // `id` is a CK_ULONG as it lies in memory.
  predicate IsKey(o: Object, objClass: nat, id: seq<Byte>) {
    |id| == 8 && Lookup(o.attrs, CKA_ID) == Some(id) && Lookup(o.attrs, CKA_CLASS) == Some(Ulong(objClass))
  }

  // p11_find_slot_object: the lowest handle with that class and id, 0 for none.
  function Find(objects: seq<Object>, objClass: nat, id: seq<Byte>): (h: nat)
    ensures h <= |objects|
    ensures h > 0 ==> IsKey(objects[h - 1], objClass, id) && forall j | 0 <= j < h - 1 :: !IsKey(objects[j], objClass, id)
    ensures h == 0 <==> forall j | 0 <= j < |objects| :: !IsKey(objects[j], objClass, id)
  {
    if objects == [] then 0
    else if IsKey(objects[0], objClass, id) then 1
    else
      var h := Find(objects[1..], objClass, id);
      assert forall j | 1 <= j < |objects| :: objects[j] == objects[1..][j - 1];
      if h == 0 then 0 else h + 1
  }

  // ---- What allocation and filling promise

  // A handle that was not in use, every other entry kept, and growth only by unused entries.
  lemma AddIsFresh(objects: seq<Object>, f: Filling, epoch: nat)
    ensures var (after, h, rv) := AddFilled(objects, f, epoch);
            (h <= |objects| ==> !objects[h - 1].inUse) && (forall j | 0 <= j < h - 1 :: objects[j].inUse)
            && after[h - 1].inUse && after[h - 1].addedIn == epoch
            && (forall j | 0 <= j < |objects| && j != h - 1 :: after[j] == objects[j])
            && (forall j | |objects| <= j < |after| && j != h - 1 :: after[j] == BlankObject)
  {
  }

  // All entries in use: the table grows by three, and the old table is its prefix.
  lemma AddGrows(objects: seq<Object>, f: Filling, epoch: nat)
    ensures var (after, h, rv) := AddFilled(objects, f, epoch);
            if forall j | 0 <= j < |objects| :: objects[j].inUse
            then h == |objects| + 1 && |after| == |objects| + 3 && objects <= after
            else |after| == |objects|
  {
    assert forall j | 0 <= j < |objects| :: objects[j].inUse ==> FreeEntry(objects) != j;
  }

  predicate Has(kinds: seq<nat>, kind: nat) { exists i :: 0 <= i < |kinds| && kinds[i] == kind }

  lemma TemplateReads(kinds: seq<nat>, kind: nat)
    ensures Lookup(Template(kinds), kind) == if Has(kinds, kind) then Some([]) else None
  {
  }

  // A data object is added with success exactly when its template names the seven kinds and its values are short enough.
  lemma DataAdded(objects: seq<Object>, kinds: seq<nat>, token: bool, objClass: nat, private: bool, name: seq<Byte>,
                  value: seq<Byte>, objectId: seq<Byte>, hidden: bool, epoch: nat)
    ensures AddFilled(objects, Data(kinds, token, objClass, private, name, value, objectId, hidden), epoch).2 == CKR_OK
       <==> |kinds| <= MAX_OBJECT_SIZE
            && |name| <= MAX_ATTRIBUTE_SIZE && |value| <= MAX_ATTRIBUTE_SIZE && |objectId| <= MAX_ATTRIBUTE_SIZE
            && Has(kinds, CKA_TOKEN) && Has(kinds, CKA_CLASS) && Has(kinds, CKA_PRIVATE) && Has(kinds, CKA_LABEL)
            && Has(kinds, CKA_VALUE) && Has(kinds, CKA_VALUE_LEN) && Has(kinds, CKA_OBJECT_ID)
  {
    hide UpdateAll, Lookup, LittleEndian, Has;
    var s := Data(kinds, token, objClass, private, name, value, objectId, hidden).sets;
    if |kinds| <= MAX_OBJECT_SIZE {
      UpdateAllSucceeds(Template(kinds), s);
      forall i | 0 <= i < |s| ensures Lookup(Template(kinds), s[i].kind) != None <==> Has(kinds, s[i].kind) {
        TemplateReads(kinds, s[i].kind);
      }
      assert s[0].kind == CKA_TOKEN && s[1].kind == CKA_CLASS && s[2].kind == CKA_PRIVATE && s[3].kind == CKA_LABEL;
      assert s[4].kind == CKA_VALUE && s[5].kind == CKA_VALUE_LEN && s[6].kind == CKA_OBJECT_ID;
    }
  }

  // It then carries exactly these values, and empty ones for the rest of its template.
  lemma DataReads(objects: seq<Object>, kinds: seq<nat>, token: bool, objClass: nat, private: bool, name: seq<Byte>,
                  value: seq<Byte>, objectId: seq<Byte>, hidden: bool, epoch: nat, kind: nat)
    requires AddFilled(objects, Data(kinds, token, objClass, private, name, value, objectId, hidden), epoch).2 == CKR_OK
    ensures var (after, h, _) := AddFilled(objects, Data(kinds, token, objClass, private, name, value, objectId, hidden), epoch);
            var o := after[h - 1];
            o.inUse && o.cached && o.hidden == hidden
            && Lookup(o.attrs, kind) ==
               if kind == CKA_TOKEN then Some([if token then 1 else 0])
               else if kind == CKA_CLASS then Some(Ulong(objClass))
               else if kind == CKA_PRIVATE then Some([if private then 1 else 0])
               else if kind == CKA_LABEL then Some(name)
               else if kind == CKA_VALUE then Some(value)
               else if kind == CKA_VALUE_LEN then Some(Ulong(|value|))
               else if kind == CKA_OBJECT_ID then Some(objectId)
               else if Has(kinds, kind) then Some([]) else None
  {
    hide UpdateAll, Lookup, LastSet, LittleEndian, Has;
    var f := Data(kinds, token, objClass, private, name, value, objectId, hidden);
    UpdateAllReads(Template(kinds), f.sets, kind);
    TemplateReads(kinds, kind);
    LastOfSeven(f.sets, kind);
  }

  lemma LastOfSeven(s: seq<Attr>, kind: nat)
    requires |s| == 7
    ensures LastSet(s, kind) ==
            if s[6].kind == kind then Some(s[6].value) else if s[5].kind == kind then Some(s[5].value)
            else if s[4].kind == kind then Some(s[4].value) else if s[3].kind == kind then Some(s[3].value)
            else if s[2].kind == kind then Some(s[2].value) else if s[1].kind == kind then Some(s[1].value)
            else if s[0].kind == kind then Some(s[0].value) else None
  {
    LastOfFour(s[3..], kind);
    LastFrom(s, 2, kind);
    LastFrom(s, 1, kind);
    LastFrom(s, 0, kind);
    assert s[0..] == s;
  }

  lemma LastOfFour(s: seq<Attr>, kind: nat)
    requires |s| == 4
    ensures LastSet(s, kind) ==
            if s[3].kind == kind then Some(s[3].value) else if s[2].kind == kind then Some(s[2].value)
            else if s[1].kind == kind then Some(s[1].value) else if s[0].kind == kind then Some(s[0].value) else None
  {
    LastFrom(s, 3, kind);
    LastFrom(s, 2, kind);
    LastFrom(s, 1, kind);
    LastFrom(s, 0, kind);
    assert s[0..] == s;
  }

  lemma LastFrom(s: seq<Attr>, i: nat, kind: nat)
    requires i < |s|
    ensures LastSet(s[i..], kind) ==
            if LastSet(s[i + 1..], kind) != None then LastSet(s[i + 1..], kind)
            else if s[i].kind == kind then Some(s[i].value) else None
  {
    assert s[i..][0] == s[i] && s[i..][1..] == s[i + 1..];
  }

  // A listed certificate or key is found again under its class and id, and not under another of either.
  lemma ListedIsFound(objects: seq<Object>, kinds: seq<nat>, token: bool, objClass: nat, id: nat, private: bool, epoch: nat,
                      otherClass: nat, otherId: nat)
    requires objClass < 0x1_0000_0000_0000_0000 && id < 0x1_0000_0000_0000_0000
    requires otherClass < 0x1_0000_0000_0000_0000 && otherId < 0x1_0000_0000_0000_0000
    requires AddFilled(objects, Listed(kinds, token, objClass, id, private), epoch).2 == CKR_OK
    ensures var (after, h, _) := AddFilled(objects, Listed(kinds, token, objClass, id, private), epoch);
            (IsKey(after[h - 1], otherClass, Ulong(otherId)) <==> otherClass == objClass && otherId == id)
            && 1 <= Find(after, objClass, Ulong(id)) <= h
  {
    hide UpdateAll, Lookup, LastSet, LittleEndian;
    var f := Listed(kinds, token, objClass, id, private);
    UpdateAllReads(Template(kinds), f.sets, CKA_ID);
    UpdateAllReads(Template(kinds), f.sets, CKA_CLASS);
    LastOfFour(f.sets, CKA_ID);
    LastOfFour(f.sets, CKA_CLASS);
    UlongInjective(objClass, otherClass);
    UlongInjective(id, otherId);
  }

  // It carries exactly the values it was listed with and empty ones for the rest.
  lemma ListedReads(objects: seq<Object>, kinds: seq<nat>, token: bool, objClass: nat, id: nat, private: bool, epoch: nat, kind: nat)
    requires AddFilled(objects, Listed(kinds, token, objClass, id, private), epoch).2 == CKR_OK
    ensures var (after, h, _) := AddFilled(objects, Listed(kinds, token, objClass, id, private), epoch);
            Lookup(after[h - 1].attrs, kind) ==
            if kind == CKA_TOKEN then Some([if token then 1 else 0])
            else if kind == CKA_PRIVATE then Some([if private then 1 else 0])
            else if kind == CKA_CLASS then Some(Ulong(objClass))
            else if kind == CKA_ID then Some(Ulong(id))
            else if Has(kinds, kind) then Some([]) else None
  {
    hide UpdateAll, Lookup, LastSet, LittleEndian, Has;
    var f := Listed(kinds, token, objClass, id, private);
    UpdateAllReads(Template(kinds), f.sets, kind);
    TemplateReads(kinds, kind);
    LastOfFour(f.sets, kind);
  }

  // Cleaning leaves no entry in use exactly when no list in use is longer than the limit, and then no key is found.
  lemma CleanEmpties(objects: seq<Object>)
    ensures (forall i | 0 <= i < |objects| :: !CleanAll(objects)[i].inUse)
       <==> forall i | 0 <= i < |objects| :: objects[i].inUse ==> |objects[i].attrs| <= MAX_OBJECT_SIZE
  {
    assert forall i | 0 <= i < |objects| :: CleanAll(objects)[i] == Clean(objects[i]);
  }
}
