/** What every call on one session leaves as it was, whatever the reader reports meanwhile. */
module Evolution {
  import opened Wrappers
  import opened Attributes
  import opened ObjectTable
  import opened Engine

  // From p to q session i stayed what it was, except that its card may have gone; if it is still valid, its slot
  // has not been cleaned. Only session h's search may have changed.
  predicate SessionKept(p: P11, q: P11, h: nat, i: nat)
    requires i < |p.sessions| == |q.sessions| && |p.slots| == |q.slots|
  {
    var a, b := p.sessions[i], q.sessions[i];
    b.inUse == a.inUse && b.slot == a.slot && b.rw == a.rw && b.openedIn == a.openedIn
    && (i + 1 != h ==> b.finding == a.finding && b.search == a.search)
    && (b.state == STILL_PRESENT ==> a.state == STILL_PRESENT)
    && (b.state == STILL_PRESENT && b.inUse && b.slot < |p.slots| ==> q.slots[b.slot].epoch == p.slots[b.slot].epoch)
  }

  predicate SlotKept(p: P11, q: P11, s: nat)
    requires s < |p.slots| == |q.slots|
  {
    var a, b := p.slots[s], q.slots[s];
    b.nsessions == a.nsessions && b.connect == a.connect && b.epoch >= a.epoch
    && (b.loggedIn ==> a.loggedIn || exists i :: 0 <= i < |p.sessions| && On(p.sessions[i], s))
  }

  predicate Evolves(p: P11, q: P11, h: nat) {
    SameSize(p, q)
    && (forall i | 0 <= i < |p.sessions| :: SessionKept(p, q, h, i))
    && (forall s | 0 <= s < |p.slots| :: SlotKept(p, q, s))
  }

  // Objects in use belong to the present card, and the others hold nothing.
  predicate EntrySound(o: Object, epoch: nat) {
    if o.inUse then o.addedIn == epoch && |o.attrs| <= MAX_OBJECT_SIZE else o.attrs == [] && !o.cached && !o.hidden
  }

  predicate TableSound(objects: seq<Object>, epoch: nat) {
    forall j | 0 <= j < |objects| :: EntrySound(objects[j], epoch)
  }

  predicate ObjectsSound(p: P11) {
    forall s | 0 <= s < |p.slots| :: TableSound(p.slots[s].objects, p.slots[s].epoch)
  }

  // Templates are the module's own, all of them short.
  predicate Short(fillings: seq<Filling>) {
    forall i | 0 <= i < |fillings| :: |fillings[i].kinds| <= MAX_OBJECT_SIZE
  }

  predicate Shipped(op: Op) {
    op.OpFindInit? ==> Short(op.load.listing) && Short(op.load.files)
  }

  // ---- The changes calls are made of

  lemma Stays(p: P11, h: nat)
    ensures Evolves(p, p, h)
  {
  }

  lemma Composes(p: P11, q: P11, r: P11, h: nat)
    requires Evolves(p, q, h) && Evolves(q, r, h)
    ensures Evolves(p, r, h)
  {
    forall i | 0 <= i < |p.sessions| ensures SessionKept(p, r, h, i) {
      assert SessionKept(p, q, h, i) && SessionKept(q, r, h, i);
    }
    forall s | 0 <= s < |p.slots| ensures SlotKept(p, r, s) {
      assert SlotKept(p, q, s) && SlotKept(q, r, s);
      if i :| 0 <= i < |q.sessions| && On(q.sessions[i], s) {
        assert SessionKept(p, q, h, i);
        assert On(p.sessions[i], s);
      }
    }
  }

  lemma UpdateEvolves(p: P11, s: nat, r: Reading, h: nat)
    ensures Evolves(p, UpdateToken(p, s, r).p, h)
    ensures ObjectsSound(p) ==> ObjectsSound(UpdateToken(p, s, r).p)
  {
    var q := UpdateToken(p, s, r).p;
    if q != p {
      if ObjectsSound(p) {
        forall t | 0 <= t < |q.slots| ensures TableSound(q.slots[t].objects, q.slots[t].epoch) {
          assert TableSound(p.slots[t].objects, p.slots[t].epoch);
          if t == s {
            forall j | 0 <= j < |q.slots[s].objects| ensures EntrySound(q.slots[s].objects[j], q.slots[s].epoch) {
              assert EntrySound(p.slots[s].objects[j], p.slots[s].epoch);
            }
          }
        }
      }
    }
  }

  lemma GetEvolves(p: P11, g: nat, r: Reading, h: nat)
    ensures Evolves(p, GetSession(p, g, r).0, h)
    ensures ObjectsSound(p) ==> ObjectsSound(GetSession(p, g, r).0)
    ensures GetSession(p, g, r).1 == CKR_OK ==>
              GetSession(p, g, r).0 == p && p.sessions[g - 1].inUse
              && p.sessions[g - 1].slot < |p.slots| && p.sessions[g - 1].state == STILL_PRESENT
  {
    Stays(p, h);
    if IsHandle(p, g) {
      UpdateEvolves(p, p.sessions[g - 1].slot, r, h);
    }
  }

  // Changes to the object table of one slot.
  lemma ObjectsEvolve(p: P11, s: nat, objects: seq<Object>, listed: bool, h: nat)
    requires s < |p.slots|
    ensures var q := WithSlot(p, s, p.slots[s].(objects := objects, listed := listed));
            Evolves(p, q, h)
            && (ObjectsSound(p) && TableSound(objects, p.slots[s].epoch) ==> ObjectsSound(q))
  {
  }

  // Changes to the search of session h.
  lemma SearchEvolves(p: P11, h: nat, finding: bool, search: Option<Search>)
    requires IsHandle(p, h)
    ensures var q := WithSession(p, h - 1, p.sessions[h - 1].(finding := finding, search := search));
            Evolves(p, q, h) && q.slots == p.slots
  {
  }

  lemma {:induction false} AddAllSound(objects: seq<Object>, fillings: seq<Filling>, epoch: nat)
    requires TableSound(objects, epoch) && Short(fillings)
    ensures TableSound(AddAll(objects, fillings, epoch).0, epoch)
    decreases |fillings|
  {
    if fillings != [] {
      var (after, h, rv) := AddFilled(objects, fillings[0], epoch);
      AddIsFresh(objects, fillings[0], epoch);
      assert TableSound(after, epoch);
      if rv == CKR_OK {
        AddAllSound(after, fillings[1..], epoch);
      }
    }
  }

  predicate SameUse(a: seq<Object>, b: seq<Object>) {
    |a| == |b| && forall j | 0 <= j < |a| :: b[j].inUse == a[j].inUse
  }

  lemma StoreSound(objects: seq<Object>, h: nat, sets: seq<Attr>, epoch: nat)
    requires h <= |objects| && TableSound(objects, epoch)
    requires h > 0 ==> objects[h - 1].inUse
    ensures TableSound(StoreOn(objects, h, sets).0, epoch)
    ensures SameUse(objects, StoreOn(objects, h, sets).0)
  {
  }

  lemma ReadSound(objects: seq<Object>, id: seq<Byte>, card: Card, epoch: nat)
    requires TableSound(objects, epoch)
    ensures TableSound(ReadPair(objects, id, card).0, epoch)
    ensures SameUse(objects, ReadPair(objects, id, card).0)
  {
    hide TableSound, Find, SameUse, StorePair, IsKey;
    KeyInUse(objects, CKO_PRIVATE_KEY, id, epoch);
    KeyInUse(objects, CKO_PUBLIC_KEY, id, epoch);
    KeyInUse(objects, CKO_CERTIFICATE, id, epoch);
    PairSound(objects, Find(objects, CKO_PRIVATE_KEY, id), Find(objects, CKO_PUBLIC_KEY, id),
              Find(objects, CKO_CERTIFICATE, id), card, epoch);
  }

  lemma PairSound(objects: seq<Object>, k: nat, u: nat, c: nat, card: Card, epoch: nat)
    requires k <= |objects| && u <= |objects| && c <= |objects| && TableSound(objects, epoch)
    requires (k > 0 ==> objects[k - 1].inUse) && (u > 0 ==> objects[u - 1].inUse) && (c > 0 ==> objects[c - 1].inUse)
    ensures TableSound(StorePair(objects, k, u, c, card).0, epoch)
    ensures SameUse(objects, StorePair(objects, k, u, c, card).0)
  {
    hide UpdateAll, TableSound, StoreOn, StoreBoth;
    if card.Pair? {
      if c != 0 {
        StoreSound(objects, c, card.certificate, epoch);
        BothSound(StoreOn(objects, c, card.certificate).0, k, card.private, u, card.public, epoch);
      } else {
        BothSound(objects, u, card.public, k, card.private, epoch);
      }
    }
  }

  lemma KeyInUse(objects: seq<Object>, objClass: nat, id: seq<Byte>, epoch: nat)
    requires TableSound(objects, epoch)
    ensures var h := Find(objects, objClass, id); h > 0 ==> objects[h - 1].inUse
  {
    hide Find;
    var h := Find(objects, objClass, id);
    if h > 0 {
      assert EntrySound(objects[h - 1], epoch);
      assert objects[h - 1].attrs != [];
    }
  }

  lemma BothSound(objects: seq<Object>, h: nat, sets: seq<Attr>, g: nat, others: seq<Attr>, epoch: nat)
    requires h <= |objects| && g <= |objects| && TableSound(objects, epoch)
    requires (h > 0 ==> objects[h - 1].inUse) && (g > 0 ==> objects[g - 1].inUse)
    ensures TableSound(StoreBoth(objects, h, sets, g, others).0, epoch)
    ensures SameUse(objects, StoreBoth(objects, h, sets, g, others).0)
  {
    hide UpdateAll, TableSound, StoreOn;
    StoreSound(objects, h, sets, epoch);
    StoreSound(StoreOn(objects, h, sets).0, g, others, epoch);
  }

  // ---- The calls

  lemma LoginEvolves(p: P11, h: nat, user: nat, r: Reading, answer: nat)
    ensures Evolves(p, Login(p, h, user, r, answer).0, h)
    ensures ObjectsSound(p) ==> ObjectsSound(Login(p, h, user, r, answer).0)
  {
    hide UpdateToken;
    GetEvolves(p, h, r, h);
    Stays(p, h);
    var (q, rv) := GetSession(p, h, r);
    if rv == CKR_OK {
      assert On(q.sessions[h - 1], q.sessions[h - 1].slot);
    }
  }

  lemma LogoutEvolves(p: P11, h: nat, r: Reading, answer: nat)
    ensures Evolves(p, Logout(p, h, r, answer).0, h)
    ensures ObjectsSound(p) ==> ObjectsSound(Logout(p, h, r, answer).0)
  {
    hide UpdateToken;
    GetEvolves(p, h, r, h);
  }

  lemma StartEvolves(p: P11, h: nat, template: seq<Attr>)
    requires IsHandle(p, h)
    ensures Evolves(p, Start(p, h, template).0, h) && Start(p, h, template).0.slots == p.slots
  {
    hide Evolves;
    var session := p.sessions[h - 1];
    Stays(p, h);
    SearchEvolves(p, h, session.finding, Some(Search([], 1)));
    SearchEvolves(p, h, true, Some(Search(template, 1)));
  }

  lemma LoadEvolves(p: P11, s: nat, load: Load, h: nat)
    requires s < |p.slots|
    ensures Evolves(p, LoadFiles(p, s, load).0, h)
    ensures ObjectsSound(p) && Short(load.files) ==> ObjectsSound(LoadFiles(p, s, load).0)
  {
    hide AddAll, Evolves, ObjectsSound, TableSound, Short;
    var slot := p.slots[s];
    ObjectsEvolve(p, s, AddAll(slot.objects, load.files, slot.epoch).0, slot.listed, h);
    SoundAt(p, s);
    if TableSound(slot.objects, slot.epoch) && Short(load.files) {
      AddAllSound(slot.objects, load.files, slot.epoch);
    }
  }

  lemma ListEvolves(p: P11, s: nat, load: Load, h: nat)
    requires s < |p.slots|
    ensures var q := WithSlot(p, s, ListObjects(p.slots[s], load));
            Evolves(p, q, h) && (ObjectsSound(p) && Short(load.listing) ==> ObjectsSound(q))
  {
    hide AddAll, Evolves, ObjectsSound, TableSound, Short;
    var slot := p.slots[s];
    if slot.listed {
      assert p.slots[s := slot] == p.slots;
      Stays(p, h);
    } else {
      ObjectsEvolve(p, s, ListObjects(slot, load).objects, !load.thrown, h);
      SoundAt(p, s);
      if TableSound(slot.objects, slot.epoch) && Short(load.listing) {
        AddAllSound(slot.objects, load.listing, slot.epoch);
      }
    }
  }

  lemma FindInitEvolves(p: P11, h: nat, template: seq<Attr>, r: Reading, load: Load)
    ensures Evolves(p, FindInit(p, h, template, r, load).0, h)
    ensures ObjectsSound(p) && Short(load.listing) && Short(load.files) ==> ObjectsSound(FindInit(p, h, template, r, load).0)
  {
    hide UpdateToken, Evolves, ObjectsSound, Short, Lookup, Ulong, Start, LoadFiles, ListObjects, OnCard, IsClass;
    GetEvolves(p, h, r, h);
    var (q, rv) := GetSession(p, h, r);
    if rv == CKR_OK {
      var s := q.sessions[h - 1].slot;
      Stays(q, h);
      ListEvolves(q, s, load, h);
      forall listed | listed == q || listed == WithSlot(q, s, ListObjects(q.slots[s], load))
        ensures Evolves(p, listed, h) && Evolves(p, Start(listed, h, template).0, h)
        ensures Evolves(p, LoadFiles(Start(listed, h, template).0, s, load).0, h)
        ensures ObjectsSound(listed) ==> ObjectsSound(Start(listed, h, template).0)
        ensures ObjectsSound(listed) && Short(load.files) ==> ObjectsSound(LoadFiles(Start(listed, h, template).0, s, load).0)
      {
        var started := Start(listed, h, template).0;
        StartEvolves(listed, h, template);
        SameObjects(listed, started);
        LoadEvolves(started, s, load, h);
        Composes(p, listed, started, h);
        Composes(p, started, LoadFiles(started, s, load).0, h);
      }
    }
  }

  lemma SoundAt(p: P11, s: nat)
    requires s < |p.slots|
    ensures ObjectsSound(p) ==> TableSound(p.slots[s].objects, p.slots[s].epoch)
  {
  }

  lemma SameObjects(p: P11, q: P11)
    ensures p.slots == q.slots ==> (ObjectsSound(p) <==> ObjectsSound(q))
  {
  }

  lemma FindEvolves(p: P11, h: nat, max: nat, r: Reading)
    ensures Evolves(p, FindObjects(p, h, max, r).0, h)
    ensures ObjectsSound(p) ==> ObjectsSound(FindObjects(p, h, max, r).0)
  {
    hide UpdateToken, Scan, Evolves, Hopeless;
    GetEvolves(p, h, r, h);
    var (q, rv) := GetSession(p, h, r);
    if rv == CKR_OK && q.sessions[h - 1].search != None {
      var session := q.sessions[h - 1];
      var end := Scan(q.slots[session.slot].objects, session.search.value.template, session.search.value.current, max).1;
      SearchEvolves(q, h, session.finding, Some(session.search.value.(current := end)));
      Composes(p, q, WithSession(q, h - 1, session.(search := Some(session.search.value.(current := end)))), h);
    }
  }

  lemma FindFinalEvolves(p: P11, h: nat, r: Reading)
    ensures Evolves(p, FindFinal(p, h, r).0, h)
    ensures ObjectsSound(p) ==> ObjectsSound(FindFinal(p, h, r).0)
  {
    hide UpdateToken, Evolves;
    GetEvolves(p, h, r, h);
    var (q, rv) := GetSession(p, h, r);
    if rv == CKR_OK {
      SearchEvolves(q, h, false, None);
      Composes(p, q, WithSession(q, h - 1, q.sessions[h - 1].(finding := false, search := None)), h);
    }
  }

  lemma ReadEvolves(p: P11, s: nat, o: nat, r: Reading, card: Card, h: nat)
    requires s < |p.slots| && o < |p.slots[s].objects|
    ensures Evolves(p, ReadObject(p, s, o, r, card).0, h)
    ensures ObjectsSound(p) ==> ObjectsSound(ReadObject(p, s, o, r, card).0)
  {
    hide UpdateToken, ReadPair, Evolves, ObjectsSound, TableSound, Lookup, Ulong;
    UpdateEvolves(p, s, r, h);
    var q := UpdateToken(p, s, r).p;
    if UpdateToken(p, s, r).rv == CKR_OK {
      var slot := q.slots[s];
      var id := Lookup(slot.objects[o].attrs, CKA_ID);
      if id != None {
        var objects := ReadPair(slot.objects, id.value, card).0;
        ObjectsEvolve(q, s, objects, slot.listed, h);
        Composes(p, q, WithSlot(q, s, slot.(objects := objects)), h);
        SoundAt(q, s);
        if TableSound(slot.objects, slot.epoch) {
          ReadSound(slot.objects, id.value, card, slot.epoch);
        }
      }
    }
  }

  lemma GetAttributesEvolves(p: P11, h: nat, o: nat, requests: seq<Request>, r: Reading, again: Reading, card: Card)
    ensures Evolves(p, GetAttributes(p, h, o, requests, r, again, card).0, h)
    ensures ObjectsSound(p) ==> ObjectsSound(GetAttributes(p, h, o, requests, r, again, card).0)
  {
    hide UpdateToken, ReadObject, Evolves, ObjectsSound, AnswerAll;
    GetEvolves(p, h, r, h);
    var (q, rv) := GetSession(p, h, r);
    if rv == CKR_OK {
      var s := q.sessions[h - 1].slot;
      if 0 < o <= |q.slots[s].objects| {
        ReadEvolves(q, s, o - 1, again, card, h);
        Composes(p, q, ReadObject(q, s, o - 1, again, card).0, h);
      }
    }
  }

  // The session a call works on; 0 when it works on none.
  function Target(op: Op): nat {
    if op.OpOpen? || op.OpCloseAll? || op.OpPoll? then 0 else op.h
  }

  predicate OpensOrCloses(op: Op) { op.OpOpen? || op.OpClose? || op.OpCloseAll? }

  lemma CallEvolves(p: P11, op: Op)
    requires !OpensOrCloses(op)
    ensures Evolves(p, Call(p, op).0, Target(op))
    ensures ObjectsSound(p) && Shipped(op) ==> ObjectsSound(Call(p, op).0)
  {
    hide Evolves, ObjectsSound, UpdateToken, Login, Logout, FindInit, FindObjects, FindFinal, GetAttributes, Short;
    match op
    case OpLogin(h, user, r, answer) => LoginEvolves(p, h, user, r, answer);
    case OpLogout(h, r, answer) => LogoutEvolves(p, h, r, answer);
    case OpFindInit(h, template, r, load) => FindInitEvolves(p, h, template, r, load);
    case OpFind(h, max, r) => FindEvolves(p, h, max, r);
    case OpFindFinal(h, r) => FindFinalEvolves(p, h, r);
    case OpGet(h, o, requests, r, again, card) => GetAttributesEvolves(p, h, o, requests, r, again, card);
    case OpPoll(s, r) => UpdateEvolves(p, s, r, 0);
  }
}
