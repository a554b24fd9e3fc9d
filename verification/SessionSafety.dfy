/** Session accounting and card epochs: what holds in every run of calls. */
module SessionSafety {
  import opened Wrappers
  import opened Attributes
  import opened ObjectTable
  import opened Engine
  import opened Evolution

  // ---- Invariants

  predicate Balanced(p: P11) { forall s | 0 <= s < |p.slots| :: p.slots[s].connect == p.slots[s].nsessions }

  // The sessions in use on a slot.
  function Count(sessions: seq<Session>, s: nat): nat {
    if sessions == [] then 0
    else
      var n := |sessions| - 1;
      Count(sessions[..n], s) + if On(sessions[n], s) then 1 else 0
  }

  predicate SlotAccounted(p: P11, s: nat)
    requires s < |p.slots|
  {
    p.slots[s].nsessions == Count(p.sessions, s) && (p.slots[s].loggedIn ==> p.slots[s].nsessions > 0)
  }

  predicate OnSlots(p: P11) { forall i | 0 <= i < |p.sessions| :: p.sessions[i].inUse ==> p.sessions[i].slot < |p.slots| }

  predicate Accounted(p: P11) { OnSlots(p) && forall s | 0 <= s < |p.slots| :: SlotAccounted(p, s) }

  // A session that is valid was opened for the card that its slot holds now.
  predicate SessionCurrent(p: P11, i: nat)
    requires i < |p.sessions|
  {
    var session := p.sessions[i];
    session.state == STILL_PRESENT ==>
      session.inUse && session.slot < |p.slots| && session.openedIn == p.slots[session.slot].epoch
  }

  predicate Current(p: P11) { forall i | 0 <= i < |p.sessions| :: SessionCurrent(p, i) }

  // ---- Counting

  lemma {:induction false} CountSame(a: seq<Session>, b: seq<Session>, s: nat)
    requires |a| == |b| && forall i | 0 <= i < |a| :: On(a[i], s) == On(b[i], s)
    ensures Count(a, s) == Count(b, s)
  {
    if a != [] {
      CountSame(a[..|a| - 1], b[..|a| - 1], s);
    }
  }

  lemma {:induction false} CountSet(a: seq<Session>, i: nat, x: Session, s: nat)
    requires i < |a|
    ensures Count(a[i := x], s) + (if On(a[i], s) then 1 else 0) == Count(a, s) + if On(x, s) then 1 else 0
  {
    var n := |a| - 1;
    if i == n {
      assert a[i := x][..n] == a[..n];
    } else {
      CountSet(a[..n], i, x, s);
      assert a[i := x][..n] == a[..n][i := x];
    }
  }

  lemma {:induction false} CountAppend(a: seq<Session>, b: seq<Session>, s: nat)
    requires forall i | 0 <= i < |b| :: !On(b[i], s)
    ensures Count(a + b, s) == Count(a, s)
  {
    if b == [] {
      assert a + b == a;
    } else {
      var n := |b| - 1;
      assert (a + b)[..|a + b| - 1] == a + b[..n];
      CountAppend(a, b[..n], s);
    }
  }

  lemma {:induction false} CountPositive(a: seq<Session>, i: nat, s: nat)
    requires i < |a| && On(a[i], s)
    ensures Count(a, s) > 0
  {
    if i < |a| - 1 {
      CountPositive(a[..|a| - 1], i, s);
    }
  }

  lemma {:induction false} CountZero(a: seq<Session>, s: nat)
    requires forall i | 0 <= i < |a| :: !On(a[i], s)
    ensures Count(a, s) == 0
  {
    if a != [] {
      CountZero(a[..|a| - 1], s);
    }
  }

  // ---- Calls on one session

  lemma EvolvesKeeps(p: P11, q: P11, h: nat)
    requires Evolves(p, q, h)
    ensures Balanced(p) ==> Balanced(q)
    ensures Current(p) ==> Current(q)
    ensures Accounted(p) ==> Accounted(q)
  {
    if Balanced(p) {
      forall s | 0 <= s < |q.slots| ensures q.slots[s].connect == q.slots[s].nsessions {
        assert SlotKept(p, q, s);
      }
    }
    if Current(p) {
      forall i | 0 <= i < |q.sessions| ensures SessionCurrent(q, i) {
        assert SessionCurrent(p, i) && SessionKept(p, q, h, i);
      }
    }
    if Accounted(p) {
      forall i | 0 <= i < |q.sessions| ensures q.sessions[i].inUse ==> q.sessions[i].slot < |q.slots| {
        assert SessionKept(p, q, h, i);
      }
      assert OnSlots(q);
      forall s | 0 <= s < |q.slots| ensures SlotAccounted(q, s) {
        assert SlotAccounted(p, s) && SlotKept(p, q, s);
        forall i | 0 <= i < |p.sessions| ensures On(p.sessions[i], s) == On(q.sessions[i], s) {
          assert SessionKept(p, q, h, i);
        }
        CountSame(p.sessions, q.sessions, s);
        if i :| 0 <= i < |p.sessions| && On(p.sessions[i], s) {
          CountPositive(p.sessions, i, s);
        }
      }
    }
  }

  // ---- Opening

  // What opening does, beside the reader's report, to the tables: one unused entry is taken.
  predicate OpenedAs(p: P11, q: P11, s: nat, rv: nat, h: nat)
    requires |p.sessions| <= |q.sessions| && |q.slots| == |p.slots|
  {
    (h == 0 ==> rv != CKR_OK && q == p)
    && (h > 0 ==>
        s < |p.slots| && h <= |q.sessions|
        && (forall i | 0 <= i < |p.sessions| && i + 1 != h :: q.sessions[i] == p.sessions[i].(state := q.sessions[i].state))
        && (forall i | |p.sessions| <= i < |q.sessions| && i + 1 != h :: q.sessions[i] == BlankSession.(state := q.sessions[i].state))
        && (h <= |p.sessions| ==> !p.sessions[h - 1].inUse)
        && q.sessions[h - 1].inUse == (rv == CKR_OK)
        && (rv == CKR_OK ==> q.sessions[h - 1].slot == s && q.sessions[h - 1].state == STILL_PRESENT
                             && q.sessions[h - 1].openedIn == q.slots[s].epoch)
        && (rv != CKR_OK ==> q.sessions[h - 1].state != STILL_PRESENT))
  }

  lemma ReserveShape(sessions: seq<Session>)
    ensures var (table, i) := Reserve(sessions);
            table[i].inUse && (i < |sessions| ==> !sessions[i].inUse && table[i] == sessions[i].(inUse := true))
            && (i >= |sessions| ==> table[i] == BlankSession.(inUse := true))
            && (forall j | 0 <= j < |sessions| && j != i :: table[j] == sessions[j])
            && (forall j | |sessions| <= j < |table| && j != i :: table[j] == BlankSession)
            && (forall j | 0 <= j < i :: sessions[j].inUse)
            && |table| == if i == |sessions| then i + 10 else |sessions|
  {
  }

  lemma UpdateShape(p: P11, s: nat, r: Reading)
    ensures var u := UpdateToken(p, s, r);
            (forall i | 0 <= i < |p.sessions| ::
              u.p.sessions[i] == p.sessions[i]
              || (On(p.sessions[i], s) && u.p.sessions[i] == p.sessions[i].(state := u.status) && u.status != STILL_PRESENT))
            && (forall t | 0 <= t < |p.slots| ::
              u.p.slots[t].nsessions == p.slots[t].nsessions && u.p.slots[t].connect == p.slots[t].connect
              && u.p.slots[t].loggedIn == p.slots[t].loggedIn
              && (t != s ==> u.p.slots[t] == p.slots[t]))
  {
  }

  lemma OpenShape(p: P11, s: nat, serial: bool, rw: bool, r: Reading)
    requires Current(p)
    ensures var (q, rv, h) := Open(p, s, serial, rw, r);
            |q.slots| == |p.slots| && |q.sessions| >= |p.sessions| && OpenedAs(p, q, s, rv, h)
            && (h > 0 ==> |q.sessions| == if h == |p.sessions| + 1 then h + 9 else |p.sessions|)
            && (forall i | 0 <= i < h - 1 :: i < |p.sessions| && p.sessions[i].inUse)
  {
    hide UpdateToken, Reserve, Current, SessionCurrent, On;
    ReservedShape(p, s, r);
  }

  // The tables when the card has been asked for, with the entry reserved.
  lemma ReservedShape(p: P11, s: nat, r: Reading)
    requires Current(p)
    ensures var (table, i) := Reserve(p.sessions);
            var q := UpdateToken(p.(sessions := table), s, r).p;
            |q.sessions| == |table| && |q.slots| == |p.slots|
            && (forall j | 0 <= j < |p.sessions| && j != i :: q.sessions[j] == p.sessions[j].(state := q.sessions[j].state))
            && (forall j | |p.sessions| <= j < |table| && j != i :: q.sessions[j] == BlankSession.(state := q.sessions[j].state))
            && (i < |p.sessions| ==> !p.sessions[i].inUse)
            && q.sessions[i].inUse && q.sessions[i].state != STILL_PRESENT
            && (forall j | 0 <= j < i :: p.sessions[j].inUse)
            && |table| == if i == |p.sessions| then i + 10 else |p.sessions|
  {
    hide UpdateToken, Reserve, Current, SessionCurrent, On;
    ReserveShape(p.sessions);
    var (table, i) := Reserve(p.sessions);
    if i < |p.sessions| { UnusedInvalid(p, i); }
    UpdateShape(p.(sessions := table), s, r);
  }

  lemma UnusedInvalid(p: P11, i: nat)
    requires Current(p) && i < |p.sessions| && !p.sessions[i].inUse
    ensures p.sessions[i].state != STILL_PRESENT
  {
    assert SessionCurrent(p, i);
  }

  lemma OpenCounts(p: P11, s: nat, serial: bool, rw: bool, r: Reading)
    ensures var (q, rv, h) := Open(p, s, serial, rw, r);
            |q.slots| == |p.slots|
            && forall t | 0 <= t < |p.slots| ::
                 var more := if rv == CKR_OK && t == s then 1 else 0;
                 q.slots[t].nsessions == p.slots[t].nsessions + more && q.slots[t].connect == p.slots[t].connect + more
                 && q.slots[t].loggedIn == p.slots[t].loggedIn
  {
    hide UpdateToken, Reserve, On;
    UpdateShape(p.(sessions := Reserve(p.sessions).0), s, r);
  }

  lemma OpenKeeps(p: P11, s: nat, serial: bool, rw: bool, r: Reading)
    requires Current(p)
    ensures var q := Open(p, s, serial, rw, r).0;
            Current(q) && (Balanced(p) ==> Balanced(q)) && (ObjectsSound(p) ==> ObjectsSound(q))
  {
    hide UpdateToken, Reserve, ObjectsSound, Evolves, Current;
    OpenShape(p, s, serial, rw, r);
    OpenCounts(p, s, serial, rw, r);
    var (q, rv, h) := Open(p, s, serial, rw, r);
    if h > 0 {
      var (table, i) := Reserve(p.sessions);
      var mid := p.(sessions := table);
      var u := UpdateToken(mid, s, r).p;
      SameObjects(p, mid);
      UpdateEvolves(mid, s, r, 0);
      ReserveCurrent(p);
      EvolvesKeeps(mid, u, 0);
      OpenEnds(u, q, s, i, rv);
    }
  }

  lemma ReserveCurrent(p: P11)
    requires Current(p)
    ensures Current(p.(sessions := Reserve(p.sessions).0))
  {
    hide Reserve;
    ReserveShape(p.sessions);
    var (table, i) := Reserve(p.sessions);
    forall j | 0 <= j < |table| ensures SessionCurrent(p.(sessions := table), j) {
      if j < |p.sessions| { assert SessionCurrent(p, j); }
    }
  }

  lemma OpenEnds(u: P11, q: P11, s: nat, i: nat, rv: nat)
    requires SameSize(u, q) && Current(u) && i < |u.sessions| && s < |u.slots|
    requires forall j | 0 <= j < |u.sessions| && j != i :: q.sessions[j] == u.sessions[j]
    requires forall t | 0 <= t < |u.slots| :: q.slots[t].epoch == u.slots[t].epoch && q.slots[t].objects == u.slots[t].objects
    requires rv == CKR_OK ==> q.sessions[i].inUse && q.sessions[i].slot == s && q.sessions[i].openedIn == q.slots[s].epoch
    requires rv != CKR_OK ==> q.sessions[i].state != STILL_PRESENT
    ensures Current(q)
    ensures ObjectsSound(u) ==> ObjectsSound(q)
  {
    forall j | 0 <= j < |q.sessions| ensures SessionCurrent(q, j) {
      assert SessionCurrent(u, j);
    }
    if ObjectsSound(u) {
      forall t | 0 <= t < |q.slots| ensures TableSound(q.slots[t].objects, q.slots[t].epoch) {
        assert TableSound(u.slots[t].objects, u.slots[t].epoch);
      }
    }
  }

  lemma CountOpened(a: seq<Session>, b: seq<Session>, i: nat, t: nat)
    requires |a| <= |b| && i < |b| && (i < |a| ==> !a[i].inUse)
    requires forall j | 0 <= j < |a| && j != i :: On(b[j], t) == On(a[j], t)
    requires forall j | |a| <= j < |b| && j != i :: !b[j].inUse
    ensures Count(b, t) == Count(a, t) + if On(b[i], t) then 1 else 0
  {
    var more := seq(|b| - |a|, j => BlankSession);
    var grown := a + more;
    CountAppend(a, more, t);
    CountSet(grown, i, b[i], t);
    CountSame(grown[i := b[i]], b, t);
  }

  lemma OpenAccounted(p: P11, s: nat, serial: bool, rw: bool, r: Reading)
    requires Current(p) && Accounted(p)
    ensures Accounted(Open(p, s, serial, rw, r).0)
  {
    hide Open, Current;
    OpenShape(p, s, serial, rw, r);
    OpenCounts(p, s, serial, rw, r);
    var (q, rv, h) := Open(p, s, serial, rw, r);
    if h > 0 {
      forall t | 0 <= t < |q.slots| ensures SlotAccounted(q, t) {
        assert SlotAccounted(p, t);
        CountOpened(p.sessions, q.sessions, h - 1, t);
      }
    }
  }

  // ---- Closing

  lemma CloseEntryKeeps(p: P11, i: nat, bye: nat)
    requires i < |p.sessions| && p.sessions[i].slot < |p.slots|
    ensures var q := CloseEntry(p, i, bye).0;
            (Current(p) ==> Current(q)) && (Balanced(p) ==> Balanced(q)) && (ObjectsSound(p) ==> ObjectsSound(q))
  {
    var q := CloseEntry(p, i, bye).0;
    if Current(p) {
      forall j | 0 <= j < |q.sessions| ensures SessionCurrent(q, j) {
        assert SessionCurrent(p, j);
      }
    }
    if ObjectsSound(p) {
      forall t | 0 <= t < |q.slots| ensures TableSound(q.slots[t].objects, q.slots[t].epoch) {
        assert TableSound(p.slots[t].objects, p.slots[t].epoch);
      }
    }
  }

  // Closing an entry keeps the accounts exactly when it was in use, or its slot counted no session.
  lemma CloseEntryAccounts(p: P11, i: nat, bye: nat)
    requires Accounted(p)
    requires i < |p.sessions| && p.sessions[i].slot < |p.slots|
    ensures Accounted(CloseEntry(p, i, bye).0) <==> p.sessions[i].inUse || p.slots[p.sessions[i].slot].nsessions == 0
  {
    var s := p.sessions[i].slot;
    var q := CloseEntry(p, i, bye).0;
    forall t | 0 <= t < |p.slots|
      ensures SlotAccounted(q, t) <==> p.sessions[i].inUse || t != s || p.slots[s].nsessions == 0
    {
      assert SlotAccounted(p, t);
      CountSet(p.sessions, i, Closed(p.sessions[i]), t);
      if p.sessions[i].inUse && t == s { CountPositive(p.sessions, i, s); }
    }
    assert Accounted(q) ==> SlotAccounted(q, s);
  }

  lemma ValidateKeeps(p: P11, i: nat, r: Reading)
    requires i < |p.sessions|
    ensures Evolves(p, Validate(p, i, r).0, 0)
    ensures ObjectsSound(p) ==> ObjectsSound(Validate(p, i, r).0)
    ensures Validate(p, i, r).0 != p ==> p.sessions[i].inUse
  {
    Stays(p, 0);
    UpdateEvolves(p, p.sessions[i].slot, r, 0);
  }

  // The handles that a caller may close: those in use, and those that leave every count alone anyway.
  predicate Closable(p: P11, h: nat) {
    IsHandle(p, h) ==>
      var session := p.sessions[h - 1];
      session.inUse || session.slot >= |p.slots| || p.slots[session.slot].nsessions == 0
  }

  lemma CloseAccounts(p: P11, h: nat, r: Reading, bye: nat)
    requires Accounted(p)
    ensures Accounted(Close(p, h, r, bye).0) <==> Closable(p, h)
  {
    hide Validate, CloseEntry, Accounted, Evolves;
    if IsHandle(p, h) {
      ValidateKeeps(p, h - 1, r);
      var q := Validate(p, h - 1, r).0;
      EvolvesKeeps(p, q, 0);
      EvolvesEntry(p, q, 0, h - 1);
      if q.sessions[h - 1].slot < |q.slots| {
        CloseEntryAccounts(q, h - 1, bye);
      }
    }
  }

  lemma EvolvesEntry(p: P11, q: P11, h: nat, i: nat)
    requires Evolves(p, q, h) && i < |p.sessions|
    ensures SameSize(p, q) && SessionKept(p, q, h, i)
    ensures forall s | 0 <= s < |p.slots| :: SlotKept(p, q, s)
  {
  }

  lemma {:induction false} CloseFromShape(p: P11, i: nat, s: nat, bye: nat, rv: nat)
    requires s < |p.slots|
    ensures var q := CloseFrom(p, i, s, bye, rv).0;
            SameSize(p, q)
            && (forall j | 0 <= j < |p.sessions| ::
                 q.sessions[j] == if j >= i && On(p.sessions[j], s) then Closed(p.sessions[j]) else p.sessions[j])
            && (forall t | 0 <= t < |p.slots| && t != s :: q.slots[t] == p.slots[t])
            && (Current(p) ==> Current(q)) && (Balanced(p) ==> Balanced(q)) && (ObjectsSound(p) ==> ObjectsSound(q))
            && (Accounted(p) ==> Accounted(q))
    decreases |p.sessions| - i
  {
    hide Current, Balanced, ObjectsSound, Accounted;
    if i < |p.sessions| {
      if On(p.sessions[i], s) {
        var (next, last) := CloseEntry(p, i, bye);
        CloseEntryKeeps(p, i, bye);
        CloseFromShape(next, i + 1, s, bye, last);
        if Accounted(p) { CloseEntryAccounts(p, i, bye); }
      } else {
        CloseFromShape(p, i + 1, s, bye, rv);
      }
    }
  }

  // After closing all sessions of a slot none is in use there, nobody is logged in, and other slots' sessions are as before.
  lemma CloseAllEmpties(p: P11, s: nat, bye: nat)
    requires Accounted(p) && s < |p.slots|
    ensures var q := CloseAll(p, s, bye).0;
            SameSize(p, q)
            && (forall i | 0 <= i < |p.sessions| :: q.sessions[i] == if On(p.sessions[i], s) then Closed(p.sessions[i]) else p.sessions[i])
            && (forall i | 0 <= i < |q.sessions| :: !On(q.sessions[i], s))
            && q.slots[s].nsessions == 0 && !q.slots[s].loggedIn && Accounted(q)
  {
    hide CloseFrom;
    assert SlotAccounted(p, s);
    var q := CloseAll(p, s, bye).0;
    if p.slots[s].nsessions == 0 {
      forall i | 0 <= i < |p.sessions| ensures !On(p.sessions[i], s) {
        if On(p.sessions[i], s) { CountPositive(p.sessions, i, s); }
      }
    } else {
      CloseFromShape(p, 0, s, bye, CKR_OK);
      forall i | 0 <= i < |q.sessions| ensures !On(q.sessions[i], s) {
        if On(p.sessions[i], s) { assert !Closed(p.sessions[i]).inUse; }
      }
      CountZero(q.sessions, s);
      assert SlotAccounted(q, s);
    }
  }

  // ---- Every call, every run

  lemma CallKeeps(p: P11, op: Op)
    requires Current(p)
    ensures Current(Call(p, op).0)
    ensures Balanced(p) ==> Balanced(Call(p, op).0)
    ensures ObjectsSound(p) && Shipped(op) ==> ObjectsSound(Call(p, op).0)
  {
    hide Current, Balanced, ObjectsSound, Accounted, Evolves, Open, UpdateToken, CloseEntry, CloseFrom, Shipped, Login, Logout,
         FindInit, FindObjects, FindFinal, GetAttributes, Validate;
    if !OpensOrCloses(op) {
      CallEvolves(p, op);
      EvolvesKeeps(p, Call(p, op).0, Target(op));
    } else {
      match op
      case OpOpen(s, serial, rw, r) => OpenKeeps(p, s, serial, rw, r);
      case OpClose(h, r, bye) =>
        if IsHandle(p, h) {
          ValidateKeeps(p, h - 1, r);
          var q := Validate(p, h - 1, r).0;
          EvolvesKeeps(p, q, 0);
          if q.sessions[h - 1].slot < |q.slots| { CloseEntryKeeps(q, h - 1, bye); }
        }
      case OpCloseAll(s, bye) =>
        if s < |p.slots| { CloseFromShape(p, 0, s, bye, CKR_OK); }
    }
  }

  // One call keeps the accounts, unless it closes a handle that it should not.
  lemma CallAccounts(p: P11, op: Op)
    requires Current(p) && Accounted(p)
    ensures Accounted(Call(p, op).0) <==> (op.OpClose? ==> Closable(p, op.h))
  {
    hide Current, Accounted, Evolves, Open, Close, UpdateToken, CloseFrom, Login, Logout,
         FindInit, FindObjects, FindFinal, GetAttributes, Closable;
    if !OpensOrCloses(op) {
      CallEvolves(p, op);
      EvolvesKeeps(p, Call(p, op).0, Target(op));
    } else {
      match op
      case OpOpen(s, serial, rw, r) => OpenAccounted(p, s, serial, rw, r);
      case OpClose(h, r, bye) => CloseAccounts(p, h, r, bye);
      case OpCloseAll(s, bye) =>
        if s < |p.slots| { CloseFromShape(p, 0, s, bye, CKR_OK); }
    }
  }

  // The counters agree and every valid session is of the present card, at the end of every run.
  lemma {:induction false} RunKeeps(p: P11, ops: seq<Op>)
    requires Current(p) && Balanced(p)
    ensures Current(After(p, ops)) && Balanced(After(p, ops))
    ensures ObjectsSound(p) && (forall k | 0 <= k < |ops| :: Shipped(ops[k])) ==> ObjectsSound(After(p, ops))
    decreases |ops|
  {
    hide Current, Balanced, ObjectsSound, Shipped, Call;
    if ops != [] {
      CallKeeps(p, ops[0]);
      RunKeeps(Call(p, ops[0]).0, ops[1..]);
    }
  }

  predicate Throughout(p: P11, ops: seq<Op>)
    decreases |ops|
  {
    Accounted(p) && (ops != [] ==> Throughout(Call(p, ops[0]).0, ops[1..]))
  }

  predicate ClosesProperly(p: P11, ops: seq<Op>)
    decreases |ops|
  {
    ops != [] ==> (ops[0].OpClose? ==> Closable(p, ops[0].h)) && ClosesProperly(Call(p, ops[0]).0, ops[1..])
  }

  // The accounts are right all through a run exactly when it closes no unused handle on a slot with sessions.
  lemma {:induction false} AccountedThroughout(p: P11, ops: seq<Op>)
    requires Current(p) && Accounted(p)
    ensures Throughout(p, ops) <==> ClosesProperly(p, ops)
    decreases |ops|
  {
    hide Current, Accounted, Call, Closable;
    if ops != [] {
      CallKeeps(p, ops[0]);
      CallAccounts(p, ops[0]);
      if Accounted(Call(p, ops[0]).0) {
        AccountedThroughout(Call(p, ops[0]).0, ops[1..]);
      } else {
        assert !Throughout(Call(p, ops[0]).0, ops[1..]);
      }
    }
  }

  lemma OpenStill(p: P11, s: nat)
    requires s < |p.slots|
    ensures var (table, i) := Reserve(p.sessions);
            var slot := p.slots[s];
            Open(p, s, true, true, Status(STILL_PRESENT, true)) ==
              (P11(p.slots[s := slot.(connect := slot.connect + 1, nsessions := slot.nsessions + 1)],
                   table[i := table[i].(slot := s, rw := true, state := STILL_PRESENT, openedIn := slot.epoch)]),
               CKR_OK, i + 1)
  {
    hide Reserve;
    var slot := p.slots[s];
    assert p.slots[s := slot.(connect := slot.connect + 1)][s := slot.(connect := slot.connect + 1, nsessions := slot.nsessions + 1)]
        == p.slots[s := slot.(connect := slot.connect + 1, nsessions := slot.nsessions + 1)];
  }

  lemma StillSame(p: P11, s: nat)
    requires s < |p.slots|
    ensures UpdateToken(p, s, Status(STILL_PRESENT, true)) == Updated(p, CKR_OK, STILL_PRESENT)
  {
  }

  /**
  From a module that was just started: connections and sessions agree and every valid session is of the present card
  after every run, and the accounts are right all through it if and only if it closes no unused handle on a slot with
  sessions.
  */
  lemma StartedFresh(p: P11, ops: seq<Op>)
    requires Fresh(p)
    ensures Current(After(p, ops)) && Balanced(After(p, ops))
    ensures (forall k | 0 <= k < |ops| :: Shipped(ops[k])) ==> ObjectsSound(After(p, ops))
    ensures Throughout(p, ops) <==> ClosesProperly(p, ops)
  {
    RunKeeps(p, ops);
    AccountedThroughout(p, ops);
  }

  // Two sessions on slot 0, and the first closed twice: the slot counts none while the second is in use.
  lemma ClosedTwice(p: P11, r: Reading)
    requires Fresh(p) && |p.slots| == 1 && r == Status(STILL_PRESENT, true)
    ensures var p2 := Open(Open(p, 0, true, true, r).0, 0, true, true, r).0;
            var q := Close(Close(p2, 1, r, 0).0, 1, r, 0).0;
            q.slots[0].nsessions == 0 && IsHandle(q, 2) && On(q.sessions[1], 0) && !Accounted(q)
  {
    hide UpdateToken, Reserve, Open, Count, FreeSession;
    var p1 := Open(p, 0, true, true, r).0;
    OpenStill(p, 0);
    ReserveShape(p.sessions);
    OpenStill(p1, 0);
    ReserveShape(p1.sessions);
    var p2 := Open(p1, 0, true, true, r).0;
    assert p2.slots[0].nsessions == 2 && On(p2.sessions[0], 0) && On(p2.sessions[1], 0);
    StillSame(p2, 0);
    assert Validate(p2, 0, r).0 == p2;
    var p3 := Close(p2, 1, r, 0).0;
    assert p3.slots[0].nsessions == 1 && p3.sessions[0] == Closed(p2.sessions[0]) && On(p3.sessions[1], 0);
    var p4 := Close(p3, 1, r, 0).0;
    CountPositive(p4.sessions, 1, 0);
    assert !SlotAccounted(p4, 0);
  }

  // ---- A session whose card went

  predicate Dead(p: P11, h: nat) { IsHandle(p, h) && p.sessions[h - 1].inUse && p.sessions[h - 1].state != STILL_PRESENT }

  // A report of any other status than still present kills the sessions of the slot, empties its object table, and makes the
  // next search list the card anew.
  lemma CleaningKills(p: P11, s: nat, status: nat, known: bool, h: nat)
    requires s < |p.slots| && IsHandle(p, h) && On(p.sessions[h - 1], s) && ObjectsSound(p)
    requires status != STILL_PRESENT && (known || Absent(status) || status > OTHER)
    ensures var q := UpdateToken(p, s, Status(status, known)).p;
            Dead(q, h) && q.slots[s].epoch == p.slots[s].epoch + 1 && !q.slots[s].listed
            && forall j | 0 <= j < |q.slots[s].objects| :: !q.slots[s].objects[j].inUse
  {
    CleanEmpties(p.slots[s].objects);
    assert TableSound(p.slots[s].objects, p.slots[s].epoch);
    forall j | 0 <= j < |p.slots[s].objects| ensures EntrySound(p.slots[s].objects[j], p.slots[s].epoch) {}
  }

  predicate Closes(p: P11, op: Op, h: nat)
    requires IsHandle(p, h)
  {
    (op.OpClose? && op.h == h) || (op.OpCloseAll? && op.s == p.sessions[h - 1].slot)
  }

  // Such a session is refused every call, and nothing is done for it.
  lemma DeadRefused(p: P11, op: Op, h: nat)
    requires Dead(p, h) && Target(op) == h && !op.OpClose?
    ensures Call(p, op).0 == p && Call(p, op).1.handles == [] && Call(p, op).1.answers == []
    ensures Call(p, op).1.rv == if op.OpLogin? && op.user != CKU_USER && op.user != CKU_SO
                                then CKR_USER_TYPE_INVALID else CKR_DEVICE_REMOVED
  {
  }

  lemma DeadStays(p: P11, op: Op, h: nat)
    requires Current(p) && Dead(p, h) && !Closes(p, op, h)
    ensures Dead(Call(p, op).0, h) && Call(p, op).0.sessions[h - 1].slot == p.sessions[h - 1].slot
  {
    hide Current, Evolves, Open, UpdateToken, CloseFrom, Login, Logout, Validate,
         FindInit, FindObjects, FindFinal, GetAttributes;
    if !OpensOrCloses(op) {
      CallEvolves(p, op);
      EvolvesEntry(p, Call(p, op).0, Target(op), h - 1);
    } else {
      match op
      case OpOpen(s, serial, rw, r) =>
        DeadBesideOpening(p, s, serial, rw, r, h);
      case OpClose(g, r, bye) =>
        if IsHandle(p, g) {
          ValidateKeeps(p, g - 1, r);
          EvolvesEntry(p, Validate(p, g - 1, r).0, 0, h - 1);
        }
      case OpCloseAll(s, bye) =>
        if s < |p.slots| { CloseFromShape(p, 0, s, bye, CKR_OK); }
    }
  }

  lemma DeadBesideOpening(p: P11, s: nat, serial: bool, rw: bool, r: Reading, h: nat)
    requires Dead(p, h)
    ensures var q := Open(p, s, serial, rw, r).0; Dead(q, h) && q.sessions[h - 1].slot == p.sessions[h - 1].slot
  {
    hide UpdateToken, Reserve;
    ReserveShape(p.sessions);
    UpdateShape(p.(sessions := Reserve(p.sessions).0), s, r);
  }

  predicate KeepsOpen(p: P11, ops: seq<Op>, h: nat)
    decreases |ops|
  {
    ops != [] ==> IsHandle(p, h) && !Closes(p, ops[0], h) && KeepsOpen(Call(p, ops[0]).0, ops[1..], h)
  }

  // Every answer to a call on session h.
  predicate RefusedAll(p: P11, ops: seq<Op>, h: nat)
    decreases |ops|
  {
    ops != [] ==>
      (Target(ops[0]) == h ==>
        Call(p, ops[0]).1.answers == [] && Call(p, ops[0]).1.handles == []
        && (Call(p, ops[0]).1.rv == CKR_DEVICE_REMOVED
            || (ops[0].OpLogin? && Call(p, ops[0]).1.rv == CKR_USER_TYPE_INVALID)))
      && RefusedAll(Call(p, ops[0]).0, ops[1..], h)
  }

  // Once its card was removed, a session answers so until it is closed, whatever happens in between.
  lemma {:induction false} RemovedUntilClosed(p: P11, ops: seq<Op>, h: nat)
    requires Current(p) && Dead(p, h) && KeepsOpen(p, ops, h)
    ensures Dead(After(p, ops), h) && RefusedAll(p, ops, h)
    decreases |ops|
  {
    hide Current, Call;
    if ops != [] {
      CallKeeps(p, ops[0]);
      DeadStays(p, ops[0], h);
      if Target(ops[0]) == h { DeadRefused(p, ops[0], h); }
      RemovedUntilClosed(Call(p, ops[0]).0, ops[1..], h);
    }
  }

  // ---- Only objects of the card a session was opened for are read or found through it

  lemma ReadIsCurrent(p: P11, h: nat, o: nat, requests: seq<Request>, r: Reading, again: Reading, card: Card)
    requires Current(p) && ObjectsSound(p)
    ensures var (q, _, answers) := GetAttributes(p, h, o, requests, r, again, card);
            answers != [] ==>
              IsHandle(q, h) && q.sessions[h - 1].inUse && q.sessions[h - 1].slot < |q.slots|
              && var slot := q.slots[q.sessions[h - 1].slot];
              0 < o <= |slot.objects| && slot.objects[o - 1].inUse
              && slot.objects[o - 1].addedIn == slot.epoch == q.sessions[h - 1].openedIn
              && answers == AnswerAll(slot.objects[o - 1].attrs, requests).0
  {
    hide UpdateToken, ReadPair, Evolves, ObjectsSound, TableSound, AnswerAll, Lookup, Ulong, Current;
    var (q, _, answers) := GetAttributes(p, h, o, requests, r, again, card);
    GetEvolves(p, h, r, h);
    if answers != [] {
      CurrentAt(p, h - 1);
      var s := p.sessions[h - 1].slot;
      SoundAt(p, s);
      EntryAt(p.slots[s].objects, o - 1, p.slots[s].epoch);
      if !p.slots[s].objects[o - 1].cached {
        ReadInEpoch(p, s, o - 1, again, card);
      }
    }
  }

  lemma CurrentAt(p: P11, i: nat)
    requires Current(p) && i < |p.sessions|
    ensures SessionCurrent(p, i)
  {
  }

  lemma EntryAt(objects: seq<Object>, j: nat, epoch: nat)
    requires TableSound(objects, epoch) && j < |objects|
    ensures EntrySound(objects[j], epoch)
  {
  }

  lemma ReadInEpoch(p: P11, s: nat, o: nat, r: Reading, card: Card)
    requires ObjectsSound(p) && s < |p.slots| && o < |p.slots[s].objects|
    requires ReadObject(p, s, o, r, card).1 == CKR_OK
    ensures var q := ReadObject(p, s, o, r, card).0;
            q.sessions == p.sessions && q.slots[s].epoch == p.slots[s].epoch && q.slots[s].objects[o].inUse
            && q.slots[s].objects[o].addedIn == q.slots[s].epoch
  {
    hide ReadPair, TableSound, Ulong, IsClass;
    SoundAt(p, s);
    var u := UpdateToken(p, s, r);
    UpdateEvolves(p, s, r, 0);
    SoundAt(u.p, s);
    var objects := u.p.slots[s].objects;
    EntryAt(objects, o, u.p.slots[s].epoch);
    assert objects[o].inUse;
    if u.p != p {
      assert objects[o] == Clean(p.slots[s].objects[o]);
      EntryAt(p.slots[s].objects, o, p.slots[s].epoch);
      assert false;
    }
    var id := Lookup(objects[o].attrs, CKA_ID);
    if id != None {
      ReadSound(objects, id.value, card, p.slots[s].epoch);
      EntryAt(ReadPair(objects, id.value, card).0, o, p.slots[s].epoch);
    }
  }

  // ---- What reading a key pair stores

  function Given(sets: seq<Attr>, attrs: seq<Attr>, kind: nat): Option<seq<Byte>> {
    if LastSet(sets, kind) != None then LastSet(sets, kind) else Lookup(attrs, kind)
  }

  // Object h counts as read and has the values it was given; other kinds are as before.
  predicate IsRead(before: seq<Object>, after: seq<Object>, h: nat, sets: seq<Attr>, kind: nat)
    requires |after| == |before|
  {
    0 < h <= |before| ==>
      after[h - 1].cached && Lookup(after[h - 1].attrs, kind) == Given(sets, before[h - 1].attrs, kind)
  }

  lemma StoreIsRead(objects: seq<Object>, h: nat, sets: seq<Attr>, kind: nat)
    requires h <= |objects| && StoreOn(objects, h, sets).1 == CKR_OK
    ensures IsRead(objects, StoreOn(objects, h, sets).0, h, sets, kind)
    ensures forall j | 0 <= j < |objects| && j + 1 != h :: StoreOn(objects, h, sets).0[j] == objects[j]
  {
    hide UpdateAll, LastSet, Lookup;
    if h > 0 { UpdateAllReads(objects[h - 1].attrs, sets, kind); }
  }

  lemma KeysDiffer(objects: seq<Object>, id: seq<Byte>)
    ensures var k, u, c := Find(objects, CKO_PRIVATE_KEY, id), Find(objects, CKO_PUBLIC_KEY, id), Find(objects, CKO_CERTIFICATE, id);
            (k > 0 ==> k != u && k != c) && (u > 0 ==> u != c)
  {
    hide Find, Ulong, Lookup;
    UlongInjective(CKO_PRIVATE_KEY, CKO_PUBLIC_KEY);
    UlongInjective(CKO_PRIVATE_KEY, CKO_CERTIFICATE);
    UlongInjective(CKO_PUBLIC_KEY, CKO_CERTIFICATE);
  }

  /**
  A read that succeeds for an id with a certificate gives certificate, private and public key each its own
  values, marks them as read, and leaves every other object alone.
  */
  lemma PairReads(objects: seq<Object>, id: seq<Byte>, card: Card, kind: nat)
    ensures var (q, rv) := ReadPair(objects, id, card);
            var k, u, c := Find(objects, CKO_PRIVATE_KEY, id), Find(objects, CKO_PUBLIC_KEY, id), Find(objects, CKO_CERTIFICATE, id);
            c > 0 && rv == CKR_OK ==>
              IsRead(objects, q, c, card.certificate, kind) && IsRead(objects, q, k, card.private, kind)
              && IsRead(objects, q, u, card.public, kind)
              && forall j | 0 <= j < |objects| && j + 1 != c && j + 1 != k && j + 1 != u :: q[j] == objects[j]
  {
    hide Find, StoreOn, IsKey, Given, Lookup;
    KeysDiffer(objects, id);
    var k, u, c := Find(objects, CKO_PRIVATE_KEY, id), Find(objects, CKO_PUBLIC_KEY, id), Find(objects, CKO_CERTIFICATE, id);
    if c > 0 && ReadPair(objects, id, card).1 == CKR_OK {
      StoreIsRead(objects, c, card.certificate, kind);
      var first := StoreOn(objects, c, card.certificate).0;
      StoreIsRead(first, k, card.private, kind);
      StoreIsRead(StoreOn(first, k, card.private).0, u, card.public, kind);
    }
  }

  // ---- Who is logged in

  // While the security officer is logged in no read-only session is opened on the slot; logging out lifts that.
  lemma OfficerExcludesReadOnly(p: P11, h: nat, r: Reading, again: Reading, answer: nat)
    requires IsHandle(p, h) && p.sessions[h - 1].slot < |p.slots| && !p.slots[p.sessions[h - 1].slot].loggedIn
    requires Login(p, h, CKU_SO, r, CKR_OK).1 == CKR_OK
    ensures var s := p.sessions[h - 1].slot;
            var q := Login(p, h, CKU_SO, r, CKR_OK).0;
            var out := Logout(q, h, Status(STILL_PRESENT, true), answer);
            Open(q, s, true, false, again) == (q, CKR_SESSION_READ_WRITE_SO_EXISTS, 0)
            && out.1 == answer && out.0.slots[s].loginType == CKU_SO && !out.0.slots[s].loggedIn
  {
    hide UpdateToken;
    GetEvolves(p, h, r, h);
    var q := Login(p, h, CKU_SO, r, CKR_OK).0;
    StillSame(q, p.sessions[h - 1].slot);
  }
}
