/** First searches. */
module Listing {
  import opened Wrappers
  import opened Attributes
  import opened ObjectTable
  import opened Engine
  import opened Evolution
  import opened SessionSafety
  import opened SearchRuns

  // What a search finds of a card: the first one lists its certificates and keys, one for data reads its files. What is
  // listed is then in the table, with the attributes it was listed with, and the search delivers it.

  /** A filling that a new object can take: few enough kinds, short enough values, each of a kind that it names. */
  predicate Fits(f: Filling) {
    |f.kinds| <= MAX_OBJECT_SIZE
    && forall i | 0 <= i < |f.sets| :: |f.sets[i].value| <= MAX_ATTRIBUTE_SIZE && Has(f.kinds, f.sets[i].kind)
  }

  /** The value that a filling gives a kind: the last one set, or an empty one if the kind is only named. */
  function Gives(f: Filling, kind: nat): Option<seq<Byte>> {
    if LastSet(f.sets, kind) != None then LastSet(f.sets, kind) else if Has(f.kinds, kind) then Some([]) else None
  }

  /** The object carries exactly what the filling gives. */
  ghost predicate Carries(o: Object, f: Filling) {
    && o.inUse && o.cached == f.cached && o.hidden == (f.cached && f.hidden)
    && forall kind: nat :: Lookup(o.attrs, kind) == Gives(f, kind)
  }

  /** How many fillings there are before the first that does not fit. */
  function Good(fillings: seq<Filling>): (n: nat)
    ensures n <= |fillings| && (forall k | 0 <= k < n :: Fits(fillings[k])) && (n < |fillings| ==> !Fits(fillings[n]))
  {
    if fillings == [] || !Fits(fillings[0]) then 0 else 1 + Good(fillings[1..])
  }

  /** Unused entries are blank, so that nothing of an earlier object shows in a new one. */
  predicate Blank(objects: seq<Object>) {
    forall j | 0 <= j < |objects| && !objects[j].inUse :: !objects[j].cached && !objects[j].hidden
  }

  /** The object with handle `g`. */
  function At(objects: seq<Object>, g: nat): Object
    requires 0 < g <= |objects|
  {
    objects[g - 1]
  }

  /** What was in use is as it was, and its handles are not among `hs`. */
  ghost predicate Kept(before: seq<Object>, after: seq<Object>, hs: seq<nat>) {
    |before| <= |after| && forall g | 0 < g <= |before| && At(before, g).inUse :: At(after, g) == At(before, g) && g !in hs
  }

  /** Nothing else is in use but `hs`, in ascending order. */
  ghost predicate Taken(before: seq<Object>, after: seq<Object>, hs: seq<nat>) {
    && (forall g <- hs :: 0 < g <= |after| && At(after, g).inUse)
    && (forall i, k | 0 <= i < k < |hs| :: hs[i] < hs[k])
    && (forall g | 0 < g <= |after| && At(after, g).inUse :: (g <= |before| && At(before, g).inUse) || g in hs)
  }

  ghost predicate CarriedAt(after: seq<Object>, fillings: seq<Filling>, hs: seq<nat>, k: nat)
    requires k < |fillings|
  {
    k < |hs| && 0 < hs[k] <= |after| && Carries(At(after, hs[k]), fillings[k])
  }

  ghost predicate Carried(after: seq<Object>, fillings: seq<Filling>, hs: seq<nat>) {
    forall k | 0 <= k < Good(fillings) :: CarriedAt(after, fillings, hs, k)
  }

  /**
  From one table to another: what was in use is as it was, the fillings up to the first that does not fit have objects of
  their own at the handles `hs`, and nothing else is in use, except one object for the filling that did not fit.
  */
  ghost predicate Placed(before: seq<Object>, after: seq<Object>, fillings: seq<Filling>, hs: seq<nat>) {
    && |hs| == (if Good(fillings) < |fillings| then Good(fillings) + 1 else |fillings|)
    && Kept(before, after, hs) && Taken(before, after, hs) && Carried(after, fillings, hs)
  }

  lemma FitsExactly(f: Filling)
    ensures Filled(f).1 == CKR_OK <==> Fits(f)
    ensures Fits(f) ==> forall kind: nat :: Lookup(Filled(f).0, kind) == Gives(f, kind)
  {
    hide UpdateAll, Lookup, LastSet, Has;
    if |f.kinds| <= MAX_OBJECT_SIZE {
      UpdateAllSucceeds(Template(f.kinds), f.sets);
      forall i | 0 <= i < |f.sets| ensures Lookup(Template(f.kinds), f.sets[i].kind) != None <==> Has(f.kinds, f.sets[i].kind) {
        TemplateReads(f.kinds, f.sets[i].kind);
      }
      if Fits(f) {
        forall kind: nat ensures Lookup(Filled(f).0, kind) == Gives(f, kind) {
          UpdateAllReads(Template(f.kinds), f.sets, kind);
          TemplateReads(f.kinds, kind);
        }
      }
    }
  }

  /** One filling: the lowest unused handle. */
  lemma OneAdded(objects: seq<Object>, f: Filling, epoch: nat)
    requires Blank(objects)
    ensures var (after, h, rv) := AddFilled(objects, f, epoch);
            (rv == CKR_OK <==> Fits(f)) && Blank(after) && Added(objects, after, h) && (Fits(f) ==> Carries(At(after, h), f))
  {
    hide Filled, Lookup, Fits, Gives;
    FitsExactly(f);
    AddIsFresh(objects, f, epoch);
  }

  /** All of them. */
  lemma {:induction false} AllAdded(objects: seq<Object>, fillings: seq<Filling>, epoch: nat) returns (hs: seq<nat>)
    requires Blank(objects)
    ensures var (after, rv) := AddAll(objects, fillings, epoch);
            && (rv == CKR_OK <==> Good(fillings) == |fillings|) && Placed(objects, after, fillings, hs)
    decreases |fillings|
  {
    hide AddFilled, Fits, Carries, Carried, At;
    if fillings == [] {
      hs := [];
      NoneCarried(objects, fillings, hs);
    } else {
      OneAdded(objects, fillings[0], epoch);
      var (next, h, rv) := AddFilled(objects, fillings[0], epoch);
      if rv != CKR_OK {
        hs := [h];
        NoneCarried(next, fillings, hs);
      } else {
        var rest := AllAdded(next, fillings[1..], epoch);
        hs := [h] + rest;
        More(objects, next, AddAll(next, fillings[1..], epoch).0, fillings, h, rest);
      }
    }
  }

  lemma NoneCarried(after: seq<Object>, fillings: seq<Filling>, hs: seq<nat>)
    requires Good(fillings) == 0
    ensures Carried(after, fillings, hs)
  {
  }

  /** What adding the first of several did. */
  ghost predicate Added(objects: seq<Object>, next: seq<Object>, h: nat) {
    && |objects| <= |next| && 0 < h <= |next| && h <= |objects| + 1 && At(next, h).inUse
    && (h <= |objects| ==> !At(objects, h).inUse)
    && (forall g | 0 < g < h :: At(objects, g).inUse)
    && (forall g | 0 < g <= |objects| && g != h :: At(next, g) == At(objects, g))
    && (forall g | |objects| < g <= |next| && g != h :: !At(next, g).inUse)
  }

  lemma More(objects: seq<Object>, next: seq<Object>, after: seq<Object>, fillings: seq<Filling>, h: nat, rest: seq<nat>)
    requires fillings != [] && Fits(fillings[0]) && Placed(next, after, fillings[1..], rest)
    requires Added(objects, next, h) && Carries(At(next, h), fillings[0])
    ensures Placed(objects, after, fillings, [h] + rest)
  {
    hide Fits, Carries, Carried;
    assert Good(fillings) == 1 + Good(fillings[1..]);
    MoreTaken(objects, next, after, h, rest);
    assert At(after, h) == At(next, h);
    MoreCarried(after, fillings, h, rest);
  }

  lemma MoreTaken(objects: seq<Object>, next: seq<Object>, after: seq<Object>, h: nat, rest: seq<nat>)
    requires Kept(next, after, rest) && Taken(next, after, rest) && Added(objects, next, h)
    ensures Kept(objects, after, [h] + rest) && Taken(objects, after, [h] + rest)
  {
    hide At;
    var hs := [h] + rest;
    assert forall g | 0 < g < h :: At(next, g) == At(objects, g);
    assert forall g | 0 < g <= h :: At(next, g).inUse;
    assert forall k | 0 <= k < |rest| :: rest[k] in rest;
    assert forall g :: g in hs <==> g == h || g in rest;
  }

  lemma MoreCarried(after: seq<Object>, fillings: seq<Filling>, h: nat, rest: seq<nat>)
    requires fillings != [] && Good(fillings) == 1 + Good(fillings[1..])
    requires 0 < h <= |after| && Carries(At(after, h), fillings[0]) && Carried(after, fillings[1..], rest)
    ensures Carried(after, fillings, [h] + rest)
  {
    hide Fits, Carries, At;
    var hs, later := [h] + rest, fillings[1..];
    forall k | 0 <= k < Good(fillings) ensures CarriedAt(after, fillings, hs, k) {
      if k > 0 {
        assert CarriedAt(after, later, rest, k - 1);
        assert hs[k] == rest[k - 1] && fillings[k] == later[k - 1];
      }
    }
  }

  // ---- Searches

  /** The class that a template asks for. */
  predicate Asks(template: seq<Attr>, objClass: nat) { Lookup(template, CKA_CLASS) == Some(Ulong(objClass)) }

  /** A search for what is on the card: everything, or a class of keys or certificates. */
  predicate ForCard(template: seq<Attr>) {
    template == [] || Asks(template, CKO_CERTIFICATE) || Asks(template, CKO_PRIVATE_KEY) || Asks(template, CKO_PUBLIC_KEY)
    || Asks(template, CKO_SECRET_KEY)
  }

  lemma SoundIsBlank(p: P11, s: nat)
    requires ObjectsSound(p) && s < |p.slots|
    ensures Blank(p.slots[s].objects)
  {
    assert TableSound(p.slots[s].objects, p.slots[s].epoch);
    assert forall j | 0 <= j < |p.slots[s].objects| :: EntrySound(p.slots[s].objects[j], p.slots[s].epoch);
  }

  lemma ClassesDiffer()
    ensures Ulong(CKO_DATA) != Ulong(CKO_CERTIFICATE) && Ulong(CKO_DATA) != Ulong(CKO_PRIVATE_KEY)
    ensures Ulong(CKO_DATA) != Ulong(CKO_PUBLIC_KEY) && Ulong(CKO_DATA) != Ulong(CKO_SECRET_KEY)
    ensures Lookup([], CKA_CLASS) == None
  {
    hide LittleEndian;
    UlongInjective(CKO_DATA, CKO_CERTIFICATE);
    UlongInjective(CKO_DATA, CKO_PRIVATE_KEY);
    UlongInjective(CKO_DATA, CKO_PUBLIC_KEY);
    UlongInjective(CKO_DATA, CKO_SECRET_KEY);
  }

  /** Whether a search can be started on the session. */
  predicate CanStart(p: P11, h: nat, template: seq<Attr>)
    requires IsHandle(p, h)
  {
    !p.sessions[h - 1].finding && Copyable(template)
  }

  /**
  The first search for keys or certificates on a card lists them, also if it is refused because another one is active or
  its template is over the limits: all of them are in the table then, and all that was there before. While the slot counts
  as listed nothing is listed again.
  */
  lemma FirstSearchLists(p: P11, h: nat, template: seq<Attr>, r: Reading, load: Load) returns (hs: seq<nat>)
    requires ObjectsSound(p) && ForCard(template) && GetSession(p, h, r).1 == CKR_OK
    ensures var (q, rv) := FindInit(p, h, template, r, load);
            && IsHandle(p, h) && p.sessions[h - 1].slot < |p.slots| == |q.slots|
            && (rv == CKR_OK <==> CanStart(p, h, template)) && (rv == CKR_OK ==> Searching(q, h, template, 1))
            && var a, b := p.slots[p.sessions[h - 1].slot], q.slots[p.sessions[h - 1].slot];
               if a.listed then b == a else Placed(a.objects, b.objects, load.listing, hs) && b.listed == !load.thrown
  {
    hide UpdateToken, AddAll, Lookup, Ulong, Placed, Copyable;
    GetEvolves(p, h, r, h);
    var s := p.sessions[h - 1].slot;
    SoundIsBlank(p, s);
    hs := AllAdded(p.slots[s].objects, load.listing, p.slots[s].epoch);
    ClassesDiffer();
    if FindInit(p, h, template, r, load).1 == CKR_OK { InitStarts(p, h, template, r, load); }
  }

  /**
  A search for data objects loads the files if it can be started, and succeeds if and only if they could be read and all
  of them added; when it does not, the search has started all the same.
  */
  lemma SearchLoads(p: P11, h: nat, template: seq<Attr>, r: Reading, load: Load) returns (hs: seq<nat>)
    requires ObjectsSound(p) && Asks(template, CKO_DATA) && GetSession(p, h, r).1 == CKR_OK
    ensures var (q, rv) := FindInit(p, h, template, r, load);
            && IsHandle(p, h) && p.sessions[h - 1].slot < |p.slots| == |q.slots|
            && (rv == CKR_OK <==> CanStart(p, h, template) && Good(load.files) == |load.files| && load.rv == CKR_OK)
            && if !CanStart(p, h, template) then q.slots == p.slots
               else
                 Searching(q, h, template, 1)
                 && var a, b := p.slots[p.sessions[h - 1].slot], q.slots[p.sessions[h - 1].slot];
                    Placed(a.objects, b.objects, load.files, hs) && b.listed == a.listed
  {
    hide UpdateToken, AddAll, Lookup, Ulong, Placed, Copyable;
    GetEvolves(p, h, r, h);
    var s := p.sessions[h - 1].slot;
    SoundIsBlank(p, s);
    hs := AllAdded(p.slots[s].objects, load.files, p.slots[s].epoch);
    ClassesDiffer();
  }

  /** A search for anything else adds nothing. */
  lemma OtherSearchAddsNothing(p: P11, h: nat, template: seq<Attr>, r: Reading, load: Load)
    requires !ForCard(template) && !Asks(template, CKO_DATA) && GetSession(p, h, r).1 == CKR_OK
    ensures FindInit(p, h, template, r, load).0.slots == p.slots
  {
    hide UpdateToken, AddAll, Lookup, Ulong;
    GetEvolves(p, h, r, h);
  }

  // ---- And they are delivered

  /** What a filling carries is what the template asks for. */
  predicate Offers(f: Filling, template: seq<Attr>) {
    (f.cached && f.hidden ==> Lookup(template, CKA_LABEL) != None && Lookup(template, CKA_LABEL) != Some([]))
    && forall j | 0 <= j < |template| :: Gives(f, template[j].kind) == Some(template[j].value)
  }

  lemma OffersMatches(o: Object, f: Filling, template: seq<Attr>)
    requires Carries(o, f)
    ensures Matches(o, template) <==> Offers(f, template)
  {
    hide Lookup, Gives;
  }

  /**
  Listing and searching together. Of the objects that a search added, exactly those are delivered that carry what the
  template asks for: in all its calls, if as many are asked for as there are objects, whatever is called in between.
  */
  lemma AddedAreFound(p: P11, h: nat, template: seq<Attr>, r: Reading, load: Load, ops: seq<Op>,
                      fillings: seq<Filling>, hs: seq<nat>, k: nat)
    requires Current(p) && FindInit(p, h, template, r, load).1 == CKR_OK && !Hopeless(template) && IsHandle(p, h)
    requires var q := FindInit(p, h, template, r, load).0;
             var s := p.sessions[h - 1].slot;
             && s < |p.slots| && s < |q.slots| && Placed(p.slots[s].objects, q.slots[s].objects, fillings, hs)
             && Undisturbed(q, ops, h, q.slots[s].objects, template) && Asked(q, ops, h) >= |q.slots[s].objects|
    requires k < Good(fillings)
    ensures k < |hs| && (hs[k] in Gathered(FindInit(p, h, template, r, load).0, ops, h) <==> Offers(fillings[k], template))
  {
    hide FindInit, Hopeless, Undisturbed, Current, Matches, Wanted, Gathered, Asked, Kept, Taken, Carries, Offers;
    var q := FindInit(p, h, template, r, load).0;
    var objects := q.slots[p.sessions[h - 1].slot].objects;
    assert CarriedAt(objects, fillings, hs, k);
    OffersMatches(At(objects, hs[k]), fillings[k], template);
    SearchComplete(p, h, template, r, load, ops, objects);
    AllWanted(objects, template, Asked(q, ops, h));
  }

  lemma AllWanted(objects: seq<Object>, template: seq<Attr>, n: nat)
    requires n >= |objects|
    ensures var all := Wanted(objects, template, 1); all[..SearchRuns.Min(n, |all|)] == all
  {
    WantedFew(objects, template, 1);
  }

  lemma {:induction false} WantedFew(objects: seq<Object>, template: seq<Attr>, from: nat)
    requires 0 < from <= |objects| + 1
    ensures |Wanted(objects, template, from)| <= |objects| + 1 - from
    decreases |objects| + 1 - from
  {
    hide Matches;
    if from <= |objects| { WantedFew(objects, template, from + 1); }
  }
}
