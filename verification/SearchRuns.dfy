/** Searches over several calls. */
module SearchRuns {
  import opened Wrappers
  import opened Attributes
  import opened ObjectTable
  import opened Engine
  import opened Evolution
  import opened SessionSafety

  // Searches over several calls: nothing is lost or found twice, however the results are divided into calls.

  // The handles from a cursor on whose objects match, in ascending order.
  function Wanted(objects: seq<Object>, template: seq<Attr>, from: nat): seq<nat>
    decreases |objects| + 1 - from
  {
    if from == 0 || from > |objects| then []
    else if Matches(objects[from - 1], template) then [from] + Wanted(objects, template, from + 1)
    else Wanted(objects, template, from + 1)
  }

  // Handle h is one that a search over the table has to find.
  predicate IsWanted(objects: seq<Object>, template: seq<Attr>, h: nat) {
    0 < h <= |objects| && Matches(objects[h - 1], template)
  }

  lemma {:induction false} WantedExactly(objects: seq<Object>, template: seq<Attr>, from: nat)
    requires from > 0
    ensures forall i, j | 0 <= i < j < |Wanted(objects, template, from)| ::
              Wanted(objects, template, from)[i] < Wanted(objects, template, from)[j]
    ensures forall h :: h in Wanted(objects, template, from) <==> from <= h && IsWanted(objects, template, h)
    decreases |objects| + 1 - from
  {
    hide Matches;
    if from <= |objects| {
      WantedExactly(objects, template, from + 1);
      var rest := Wanted(objects, template, from + 1);
      assert forall i | 0 <= i < |rest| :: rest[i] in rest;
    }
  }

  function Min(a: nat, b: nat): nat { if a < b then a else b }

  lemma {:induction false} ScanTakes(objects: seq<Object>, template: seq<Attr>, current: nat, max: nat)
    requires current > 0
    ensures var (found, end) := Scan(objects, template, current, max);
            var all := Wanted(objects, template, current);
            found == all[..Min(max, |all|)] && end > 0 && Wanted(objects, template, end) == all[Min(max, |all|)..]
    decreases |objects| + 1 - current
  {
    hide Matches;
    if current <= |objects| && max > 0 {
      ScanTakes(objects, template, current + 1, if Matches(objects[current - 1], template) then max - 1 else max);
    }
  }

  // What the searching calls on session h return in a run, and how much they ask for.
  function Gathered(p: P11, ops: seq<Op>, h: nat): seq<nat>
    decreases |ops|
  {
    if ops == [] then []
    else (if ops[0].OpFind? && ops[0].h == h then Call(p, ops[0]).1.handles else []) + Gathered(Call(p, ops[0]).0, ops[1..], h)
  }

  function Asked(p: P11, ops: seq<Op>, h: nat): nat
    decreases |ops|
  {
    if ops == [] then 0
    else (if ops[0].OpFind? && ops[0].h == h && Call(p, ops[0]).1.rv == CKR_OK then ops[0].max else 0)
         + Asked(Call(p, ops[0]).0, ops[1..], h)
  }

  // The same handles match in both tables.
  predicate SameMatches(objects: seq<Object>, others: seq<Object>, template: seq<Attr>) {
    |objects| == |others| && forall j | 0 <= j < |objects| :: Matches(objects[j], template) == Matches(others[j], template)
  }

  lemma {:induction false} SameWanted(objects: seq<Object>, others: seq<Object>, template: seq<Attr>, from: nat)
    requires SameMatches(objects, others, template)
    ensures Wanted(objects, template, from) == Wanted(others, template, from)
    decreases |objects| + 1 - from
  {
    hide Matches;
    if 0 < from <= |objects| { SameWanted(objects, others, template, from + 1); }
  }

  // Session h stays open and starts and ends no search, and what matches on its slot stays the same; all else is allowed,
  // on this session too.
  predicate Undisturbed(p: P11, ops: seq<Op>, h: nat, objects: seq<Object>, template: seq<Attr>)
    decreases |ops|
  {
    IsHandle(p, h) && p.sessions[h - 1].slot < |p.slots|
    && SameMatches(p.slots[p.sessions[h - 1].slot].objects, objects, template)
    && (ops != [] ==>
        !Restarts(ops[0], h) && !Closes(p, ops[0], h) && Undisturbed(Call(p, ops[0]).0, ops[1..], h, objects, template))
  }

  predicate Restarts(op: Op, h: nat) { (op.OpFindInit? || op.OpFindFinal?) && op.h == h }

  predicate Searching(p: P11, h: nat, template: seq<Attr>, current: nat) {
    IsHandle(p, h) && p.sessions[h - 1].inUse && p.sessions[h - 1].finding
    && p.sessions[h - 1].search == Some(Search(template, current))
  }

  lemma OthersLeaveSearch(p: P11, op: Op, h: nat, template: seq<Attr>, current: nat)
    requires Current(p) && Searching(p, h, template, current) && Target(op) != h && !Closes(p, op, h)
    ensures Searching(Call(p, op).0, h, template, current)
  {
    hide Current, Evolves, Open, UpdateToken, CloseFrom, Login, Logout, Validate, FindInit, FindObjects, FindFinal, GetAttributes;
    if !OpensOrCloses(op) {
      CallEvolves(p, op);
      EvolvesEntry(p, Call(p, op).0, Target(op), h - 1);
    } else {
      match op
      case OpOpen(s, serial, rw, r) =>
        OpenShape(p, s, serial, rw, r);
        assert Open(p, s, serial, rw, r).2 != h;
      case OpClose(g, r, bye) =>
        if IsHandle(p, g) {
          ValidateKeeps(p, g - 1, r);
          EvolvesEntry(p, Validate(p, g - 1, r).0, 0, h - 1);
        }
      case OpCloseAll(s, bye) =>
        if s < |p.slots| { CloseFromShape(p, 0, s, bye, CKR_OK); }
    }
  }

  // Logging in and out and reading objects on the session itself.
  lemma OwnLeaveSearch(p: P11, op: Op, h: nat, template: seq<Attr>, current: nat)
    requires Searching(p, h, template, current) && Target(op) == h && (op.OpLogin? || op.OpLogout? || op.OpGet?)
    ensures Searching(Call(p, op).0, h, template, current)
  {
    hide UpdateToken, ReadObject, AnswerAll, Evolves;
    match op
    case OpLogin(_, user, r, answer) => GetKeepsSearch(p, h, r, template, current);
    case OpLogout(_, r, answer) => GetKeepsSearch(p, h, r, template, current);
    case OpGet(_, o, requests, r, again, card) =>
      GetKeepsSearch(p, h, r, template, current);
      var s := p.sessions[h - 1].slot;
      if s < |p.slots| && 0 < o <= |p.slots[s].objects| {
        ReadEvolves(p, s, o - 1, again, card, 0);
        EvolvesEntry(p, ReadObject(p, s, o - 1, again, card).0, 0, h - 1);
      }
  }

  lemma GetKeepsSearch(p: P11, h: nat, r: Reading, template: seq<Attr>, current: nat)
    requires Searching(p, h, template, current)
    ensures Searching(GetSession(p, h, r).0, h, template, current)
    ensures GetSession(p, h, r).1 == CKR_OK ==> GetSession(p, h, r).0 == p
  {
    hide UpdateToken, Evolves;
    GetEvolves(p, h, r, 0);
    EvolvesEntry(p, GetSession(p, h, r).0, 0, h - 1);
  }

  // One searching call takes the next handles, or none when it fails.
  lemma FindTakes(p: P11, h: nat, max: nat, r: Reading, template: seq<Attr>, current: nat)
    requires Searching(p, h, template, current) && current > 0 && !Hopeless(template)
    requires p.sessions[h - 1].slot < |p.slots|
    ensures var (q, rv, found) := FindObjects(p, h, max, r);
            var objects := p.slots[p.sessions[h - 1].slot].objects;
            var all := Wanted(objects, template, current);
            var taken := if rv == CKR_OK then Min(max, |all|) else 0;
            found == all[..taken]
            && exists end :: end > 0 && Searching(q, h, template, end) && Wanted(objects, template, end) == all[taken..]
  {
    hide UpdateToken, Scan, Wanted, Evolves, Hopeless;
    GetEvolves(p, h, r, 0);
    var (q, rv) := GetSession(p, h, r);
    EvolvesEntry(p, q, 0, h - 1);
    var objects := p.slots[p.sessions[h - 1].slot].objects;
    ScanTakes(objects, template, current, max);
    if rv == CKR_OK {
      var end := Scan(objects, template, current, max).1;
      assert Searching(FindObjects(p, h, max, r).0, h, template, end);
    } else {
      assert Searching(FindObjects(p, h, max, r).0, h, template, current);
    }
  }

  lemma {:induction false} BatchesFrom(p: P11, ops: seq<Op>, h: nat, objects: seq<Object>, template: seq<Attr>, current: nat)
    requires Current(p) && Searching(p, h, template, current) && current > 0 && !Hopeless(template)
    requires Undisturbed(p, ops, h, objects, template)
    ensures var all := Wanted(objects, template, current);
            Gathered(p, ops, h) == all[..Min(Asked(p, ops, h), |all|)]
    decreases |ops|
  {
    hide Current, Call, Hopeless, Searching, Wanted, SameMatches;
    if ops != [] {
      var op := ops[0];
      var (q, reply) := Call(p, op);
      CallKeeps(p, op);
      var all := Wanted(objects, template, current);
      if op.OpFind? && op.h == h {
        FindCall(p, op);
        SameWanted(p.slots[p.sessions[h - 1].slot].objects, objects, template, current);
        FindTakes(p, h, op.max, op.r, template, current);
        var now := p.slots[p.sessions[h - 1].slot].objects;
        var end :| end > 0 && Searching(q, h, template, end)
                   && Wanted(now, template, end) == all[if reply.rv == CKR_OK then Min(op.max, |all|) else 0..];
        SameWanted(now, objects, template, end);
        BatchesFrom(q, ops[1..], h, objects, template, end);
        Joined(all, if reply.rv == CKR_OK then op.max else 0, Asked(q, ops[1..], h));
      } else {
        if Target(op) == h {
          OwnLeaveSearch(p, op, h, template, current);
        } else {
          OthersLeaveSearch(p, op, h, template, current);
        }
        BatchesFrom(q, ops[1..], h, objects, template, current);
      }
    }
  }

  lemma Joined(all: seq<nat>, a: nat, b: nat)
    ensures var rest := all[Min(a, |all|)..];
            all[..Min(a, |all|)] + rest[..Min(b, |rest|)] == all[..Min(a + b, |all|)]
  {
  }

  lemma FindCall(p: P11, op: Op)
    requires op.OpFind?
    ensures var (q, rv, found) := FindObjects(p, op.h, op.max, op.r); Call(p, op) == (q, Reply(rv, found, []))
  {
  }

  lemma InitStarts(p: P11, h: nat, template: seq<Attr>, r: Reading, load: Load)
    requires FindInit(p, h, template, r, load).1 == CKR_OK
    ensures Searching(FindInit(p, h, template, r, load).0, h, template, 1)
  {
    hide UpdateToken, AddAll, Lookup, Ulong;
    GetEvolves(p, h, r, h);
  }

  /**
  A search that was started is complete: whatever else is called in between, and however many calls it is divided into,
  the handles found are the first ones of the ascending list of all matching objects, as many as were asked for.
  */
  lemma SearchComplete(p: P11, h: nat, template: seq<Attr>, r: Reading, load: Load, ops: seq<Op>, objects: seq<Object>)
    ensures var (q, rv) := FindInit(p, h, template, r, load);
            Current(p) && rv == CKR_OK && !Hopeless(template) && Undisturbed(q, ops, h, objects, template) ==>
              var all := Wanted(objects, template, 1);
              Gathered(q, ops, h) == all[..Min(Asked(q, ops, h), |all|)]
              && (forall i, j | 0 <= i < j < |all| :: all[i] < all[j])
              && forall g :: g in all <==> IsWanted(objects, template, g)
  {
    hide FindInit, Hopeless, Wanted, Undisturbed, Current, Matches;
    var (q, rv) := FindInit(p, h, template, r, load);
    if Current(p) && rv == CKR_OK && !Hopeless(template) && Undisturbed(q, ops, h, objects, template) {
      InitStarts(p, h, template, r, load);
      InitCurrent(p, h, template, r, load);
      BatchesFrom(q, ops, h, objects, template, 1);
      WantedExactly(objects, template, 1);
    }
  }

  lemma InitCurrent(p: P11, h: nat, template: seq<Attr>, r: Reading, load: Load)
    requires Current(p)
    ensures Current(FindInit(p, h, template, r, load).0)
  {
    hide Current, FindInit, Evolves;
    FindInitEvolves(p, h, template, r, load);
    EvolvesKeeps(p, FindInit(p, h, template, r, load).0, h);
  }

  // A class that the module can be asked for, or none.
  predicate Served(template: seq<Attr>) {
    var class_ := ClassOf(template);
    class_ == None || OnCard(class_) || IsClass(class_, CKO_SECRET_KEY) || IsClass(class_, CKO_DATA)
  }

  // An active search always has a template: no call leaves one without.
  predicate SearchesHeld(p: P11) {
    forall i | 0 <= i < |p.sessions| :: p.sessions[i].finding ==> p.sessions[i].search != None
  }

  lemma HeldKept(p: P11, q: P11, h: nat)
    requires Evolves(p, q, h) && SearchesHeld(p)
    requires OwnHeld(q, h)
    ensures SearchesHeld(q)
  {
    forall i | 0 <= i < |q.sessions| ensures q.sessions[i].finding ==> q.sessions[i].search != None {
      assert SessionKept(p, q, h, i);
    }
  }

  predicate OwnHeld(q: P11, h: nat) {
    IsHandle(q, h) && q.sessions[h - 1].finding ==> q.sessions[h - 1].search != None
  }

  // What a call does to the search of its own session.
  lemma OwnSearchHeld(p: P11, op: Op)
    requires SearchesHeld(p) && !OpensOrCloses(op)
    ensures OwnHeld(Call(p, op).0, Target(op))
  {
    hide UpdateToken, Scan, Hopeless, FindInit, GetAttributes;
    var h := Target(op);
    if IsHandle(p, h) {
      UpdateKeepsSearches(p, p.sessions[h - 1].slot);
      match op
      case OpGet(_, o, requests, r, again, card) => GetHeld(p, h, o, requests, r, again, card);
      case OpFindInit(_, template, r, load) => InitHeld(p, h, template, r, load);
      case _ =>
    } else {
      CallEvolves(p, op);
    }
  }

  lemma InitHeld(p: P11, h: nat, template: seq<Attr>, r: Reading, load: Load)
    requires SearchesHeld(p) && IsHandle(p, h)
    ensures OwnHeld(FindInit(p, h, template, r, load).0, h)
  {
    hide UpdateToken, AddAll, Lookup, Ulong;
    UpdateKeepsSearches(p, p.sessions[h - 1].slot);
    GetEvolves(p, h, r, 0);
  }

  lemma GetHeld(p: P11, h: nat, o: nat, requests: seq<Request>, r: Reading, again: Reading, card: Card)
    requires SearchesHeld(p) && IsHandle(p, h)
    ensures OwnHeld(GetAttributes(p, h, o, requests, r, again, card).0, h)
  {
    hide UpdateToken, ReadPair, Lookup, Ulong, AnswerAll;
    UpdateKeepsSearches(p, p.sessions[h - 1].slot);
    GetEvolves(p, h, r, 0);
    assert forall i | 0 <= i < |p.sessions| :: SessionKept(p, GetSession(p, h, r).0, 0, i);
  }

  lemma UpdateKeepsSearches(p: P11, s: nat)
    ensures forall r :: var q := UpdateToken(p, s, r).p;
              |q.sessions| == |p.sessions| && forall i | 0 <= i < |p.sessions| ::
                q.sessions[i].finding == p.sessions[i].finding && q.sessions[i].search == p.sessions[i].search
  {
  }

  lemma CallHolds(p: P11, op: Op)
    requires SearchesHeld(p)
    ensures SearchesHeld(Call(p, op).0)
  {
    hide UpdateToken, Evolves, Reserve, CloseFrom, Login, Logout, FindInit, FindObjects, FindFinal, GetAttributes;
    if !OpensOrCloses(op) {
      CallEvolves(p, op);
      OwnSearchHeld(p, op);
      HeldKept(p, Call(p, op).0, Target(op));
    } else {
      match op
      case OpOpen(s, serial, rw, r) =>
        ReserveShape(p.sessions);
        UpdateKeepsSearches(p.(sessions := Reserve(p.sessions).0), s);
      case OpClose(h, r, bye) =>
        if IsHandle(p, h) { UpdateKeepsSearches(p, p.sessions[h - 1].slot); }
      case OpCloseAll(s, bye) =>
        if s < |p.slots| { CloseFromShape(p, 0, s, bye, CKR_OK); }
    }
  }

  lemma {:induction false} RunHolds(p: P11, ops: seq<Op>)
    requires SearchesHeld(p)
    ensures SearchesHeld(After(p, ops))
    decreases |ops|
  {
    hide SearchesHeld, Call;
    if ops != [] {
      CallHolds(p, ops[0]);
      RunHolds(Call(p, ops[0]).0, ops[1..]);
    }
  }

  /**
  Ending a search: it cannot be continued or ended again, and only then can the session start another one, which
  begins at the first handle whatever was found before. `RunHolds` gives the condition for every run.
  */
  lemma FinalEnds(p: P11, h: nat, r: Reading, max: nat, again: Reading, template: seq<Attr>, load: Load)
    requires SearchesHeld(p) && FindFinal(p, h, r).1 == CKR_OK
    requires Served(template) && Copyable(template)
    ensures var q := FindFinal(p, h, r).0;
            IsHandle(q, h)
            && (GetSession(q, h, again).1 == CKR_OK ==>
                  FindObjects(q, h, max, again) == (q, CKR_OPERATION_NOT_INITIALIZED, [])
                  && FindFinal(q, h, again) == (q, CKR_OPERATION_NOT_INITIALIZED)
                  && Searching(FindInit(q, h, template, again, load).0, h, template, 1))
    ensures GetSession(p, h, again).1 == CKR_OK ==>
              FindInit(p, h, template, again, load).1 == CKR_OPERATION_ACTIVE
              && FindInit(p, h, template, again, load).0.sessions == p.sessions
  {
    hide UpdateToken, AddAll, Lookup, Ulong;
    GetEvolves(p, h, r, h);
    GetEvolves(p, h, again, h);
    GetEvolves(FindFinal(p, h, r).0, h, again, h);
  }

  // A template that asks for another class, or for objects that are not on the token, finds nothing and is no error.
  lemma HopelessFindsNothing(p: P11, h: nat, max: nat, r: Reading, template: seq<Attr>, current: nat)
    requires Searching(p, h, template, current) && Hopeless(template)
    ensures var (q, rv, found) := FindObjects(p, h, max, r);
            found == [] && rv == GetSession(p, h, r).1 && q == GetSession(p, h, r).0
  {
    hide UpdateToken, Hopeless;
    GetEvolves(p, h, r, 0);
  }

  // Every object found is one of the card that the session was opened for.
  lemma FoundIsCurrent(p: P11, h: nat, max: nat, r: Reading, g: nat)
    requires Current(p) && ObjectsSound(p) && g in FindObjects(p, h, max, r).2
    ensures IsHandle(p, h) && p.sessions[h - 1].inUse && p.sessions[h - 1].slot < |p.slots|
    ensures var slot := p.slots[p.sessions[h - 1].slot];
            0 < g <= |slot.objects| && slot.objects[g - 1].inUse
            && slot.objects[g - 1].addedIn == slot.epoch == p.sessions[h - 1].openedIn
  {
    hide UpdateToken, Scan, Current, ObjectsSound, TableSound, Hopeless, Wanted;
    GetEvolves(p, h, r, h);
    assert GetSession(p, h, r).1 == CKR_OK;
    CurrentAt(p, h - 1);
    var session := p.sessions[h - 1];
    SoundAt(p, session.slot);
    var objects := p.slots[session.slot].objects;
    if session.search.value.current > 0 {
      ScanTakes(objects, session.search.value.template, session.search.value.current, max);
      WantedExactly(objects, session.search.value.template, session.search.value.current);
      assert IsWanted(objects, session.search.value.template, g);
      EntryAt(objects, g - 1, p.slots[session.slot].epoch);
    } else {
      ScanNone(objects, session.search.value.template, max);
    }
  }

  lemma ScanNone(objects: seq<Object>, template: seq<Attr>, max: nat)
    ensures Scan(objects, template, 0, max).0 == []
  {
  }
}
