/** For which card a slot is logged in. */
module Logins {
  import opened Attributes
  import opened Engine
  import SessionSafety

  // For which card a slot is logged in: the login state survives a change of the card.

  // Logged in by a card that is not the present one any more.
  predicate Stale(slot: Slot) { slot.loggedIn && slot.loginEpoch != slot.epoch }

  // ---- One call

  // No login: at most the slot is logged out.
  predicate Kept(a: Slot, b: Slot) {
    (b.loggedIn ==> a.loggedIn) && b.loginEpoch == a.loginEpoch && b.epoch >= a.epoch
  }

  predicate AllKept(p: P11, q: P11) {
    |q.slots| == |p.slots| && forall s | 0 <= s < |p.slots| :: Kept(p.slots[s], q.slots[s])
  }

  lemma UpdateKeeps(p: P11, s: nat, r: Reading)
    ensures AllKept(p, UpdateToken(p, s, r).p)
  {
  }

  lemma GetKeeps(p: P11, h: nat, r: Reading)
    ensures AllKept(p, GetSession(p, h, r).0)
    ensures GetSession(p, h, r).1 == CKR_OK ==> GetSession(p, h, r).0 == p
  {
    hide UpdateToken;
    if IsHandle(p, h) {
      UpdateKeeps(p, p.sessions[h - 1].slot, r);
      StillPresentSame(p, p.sessions[h - 1].slot, r);
    }
  }

  lemma StillPresentSame(p: P11, s: nat, r: Reading)
    ensures var u := UpdateToken(p, s, r); u.rv == CKR_OK && u.status == STILL_PRESENT ==> u.p == p
  {
  }

  lemma OpenLogins(p: P11, s: nat, serial: bool, rw: bool, r: Reading)
    ensures AllKept(p, Open(p, s, serial, rw, r).0)
  {
    hide UpdateToken, Reserve;
    UpdateKeeps(p.(sessions := Reserve(p.sessions).0), s, r);
  }

  lemma CloseLogins(p: P11, h: nat, r: Reading, bye: nat)
    ensures AllKept(p, Close(p, h, r, bye).0)
  {
    hide UpdateToken;
    if IsHandle(p, h) { UpdateKeeps(p, p.sessions[h - 1].slot, r); }
  }

  lemma {:induction false} CloseFromLogins(p: P11, i: nat, s: nat, bye: nat, rv: nat)
    requires s < |p.slots|
    ensures AllKept(p, CloseFrom(p, i, s, bye, rv).0)
    decreases |p.sessions| - i
  {
    if i < |p.sessions| {
      if On(p.sessions[i], s) {
        var (q, last) := CloseEntry(p, i, bye);
        CloseFromLogins(q, i + 1, s, bye, last);
      } else {
        CloseFromLogins(p, i + 1, s, bye, rv);
      }
    }
  }

  lemma FindInitLogins(p: P11, h: nat, template: seq<Attr>, r: Reading, load: Load)
    ensures AllKept(p, FindInit(p, h, template, r, load).0)
  {
    hide UpdateToken, AddAll, Lookup, Ulong;
    GetKeeps(p, h, r);
  }

  lemma FindLogins(p: P11, h: nat, max: nat, r: Reading)
    ensures AllKept(p, FindObjects(p, h, max, r).0) && AllKept(p, FindFinal(p, h, r).0)
  {
    hide UpdateToken, Scan, Hopeless;
    GetKeeps(p, h, r);
  }

  lemma GetAttributesLogins(p: P11, h: nat, o: nat, requests: seq<Request>, r: Reading, again: Reading, card: Card)
    ensures AllKept(p, GetAttributes(p, h, o, requests, r, again, card).0)
  {
    hide UpdateToken, ReadPair, Lookup, Ulong, AnswerAll;
    GetKeeps(p, h, r);
    if IsHandle(p, h) { UpdateKeeps(p, p.sessions[h - 1].slot, again); }
  }

  // The slot was logged out, and the present card accepted a login.
  predicate LogsIn(a: Slot, b: Slot, op: Op) {
    op.OpLogin? && op.answer == CKR_OK && !a.loggedIn
    && b == a.(loginType := op.user, loggedIn := true, loginEpoch := a.epoch)
  }

  // There is no other way to get logged in.
  lemma CallLogins(p: P11, op: Op)
    ensures var q := Call(p, op).0;
            |q.slots| == |p.slots|
            && forall s | 0 <= s < |p.slots| :: Kept(p.slots[s], q.slots[s]) || LogsIn(p.slots[s], q.slots[s], op)
  {
    hide UpdateToken, Open, Close, CloseFrom, FindInit, FindObjects, FindFinal, GetAttributes, GetSession;
    match op
    case OpOpen(t, serial, rw, r) => OpenLogins(p, t, serial, rw, r);
    case OpClose(h, r, bye) => CloseLogins(p, h, r, bye);
    case OpCloseAll(t, bye) => if t < |p.slots| { CloseFromLogins(p, 0, t, bye, CKR_OK); }
    case OpLogin(h, user, r, answer) => GetKeeps(p, h, r);
    case OpLogout(h, r, answer) => GetKeeps(p, h, r);
    case OpFindInit(h, template, r, load) => FindInitLogins(p, h, template, r, load);
    case OpFind(h, max, r) => FindLogins(p, h, max, r);
    case OpFindFinal(h, r) => FindLogins(p, h, 0, r);
    case OpGet(h, o, requests, r, again, card) => GetAttributesLogins(p, h, o, requests, r, again, card);
    case OpPoll(t, r) => UpdateKeeps(p, t, r);
  }

  /**
  When a login succeeds: the card accepted it, or the slot is logged in already, and then nobody asks the card. What the
  card accepted is never stale.
  */
  lemma LoginSucceeds(p: P11, h: nat, user: nat, r: Reading, answer: nat)
    requires GetSession(p, h, r).1 == CKR_OK && (user == CKU_USER || user == CKU_SO)
    ensures var (q, rv) := Login(p, h, user, r, answer);
            var s := p.sessions[h - 1].slot;
            s < |p.slots| == |q.slots|
            && (rv == CKR_OK <==> answer == CKR_OK || p.slots[s].loggedIn)
            && (p.slots[s].loggedIn ==> q == p)
            && (!p.slots[s].loggedIn && rv == CKR_OK ==> q.slots[s].loggedIn && !Stale(q.slots[s]))
  {
    hide UpdateToken;
    GetKeeps(p, h, r);
    StillPresentSame(p, p.sessions[h - 1].slot, r);
    UpdateOnSlot(p, p.sessions[h - 1].slot, r);
  }

  lemma UpdateOnSlot(p: P11, s: nat, r: Reading)
    ensures UpdateToken(p, s, r).rv == CKR_OK ==> s < |p.slots|
  {
  }

  // ---- Every run

  lemma {:induction false} AfterLast(p: P11, ops: seq<Op>)
    requires ops != []
    ensures After(p, ops) == Call(After(p, ops[..|ops| - 1]), ops[|ops| - 1]).0
    decreases |ops|
  {
    hide Call;
    if |ops| > 1 {
      AfterLast(Call(p, ops[0]).0, ops[1..]);
      assert ops[1..][..|ops| - 2] == ops[..|ops| - 1][1..];
    }
  }

  lemma {:induction false} SlotsStay(p: P11, ops: seq<Op>)
    ensures |After(p, ops).slots| == |p.slots|
    decreases |ops|
  {
    hide Call;
    if ops != [] {
      CallLogins(p, ops[0]);
      SlotsStay(Call(p, ops[0]).0, ops[1..]);
    }
  }

  // Slot s after the first k calls.
  function SlotAt(p: P11, ops: seq<Op>, s: nat, k: nat): Slot
    requires s < |p.slots| && k <= |ops|
  {
    SlotsStay(p, ops[..k]);
    After(p, ops[..k]).slots[s]
  }

  lemma NextSlot(p: P11, ops: seq<Op>, s: nat, k: nat)
    requires s < |p.slots| && k < |ops|
    ensures var a, b := SlotAt(p, ops, s, k), SlotAt(p, ops, s, k + 1); Kept(a, b) || LogsIn(a, b, ops[k])
  {
    hide Call, Kept, LogsIn;
    var first := ops[..k + 1];
    AfterLast(p, first);
    assert first[..k] == ops[..k];
    SlotsStay(p, ops[..k]);
    CallLogins(After(p, ops[..k]), ops[k]);
  }

  // From the k-th call on the slot stays logged in, by a login for the card it had then.
  predicate LoggedInSince(p: P11, ops: seq<Op>, s: nat, k: nat, n: nat)
    requires s < |p.slots| && k <= n <= |ops|
  {
    SlotAt(p, ops, s, k).loginEpoch == SlotAt(p, ops, s, k).epoch
    && forall j | k <= j <= n :: SlotAt(p, ops, s, j).loggedIn
  }

  lemma {:induction false} LoginLasts(p: P11, ops: seq<Op>, s: nat, k: nat, n: nat)
    requires s < |p.slots| && k <= n <= |ops| && LoggedInSince(p, ops, s, k, n)
    ensures SlotAt(p, ops, s, n).loginEpoch == SlotAt(p, ops, s, k).epoch <= SlotAt(p, ops, s, n).epoch
    decreases n
  {
    hide SlotAt;
    if k < n {
      LoginLasts(p, ops, s, k, n - 1);
      NextSlot(p, ops, s, n - 1);
    }
  }

  /**
  After any run of calls a slot is logged in for a card that is not the present one if and only if at some time it was
  logged in for the card it had, has been logged in ever since, and its card has changed.
  */
  lemma {:induction false} StaleExactly(p: P11, ops: seq<Op>, s: nat, n: nat)
    requires s < |p.slots| && n <= |ops| && !Stale(p.slots[s])
    ensures Stale(SlotAt(p, ops, s, n)) <==>
            exists k :: 0 <= k <= n && LoggedInSince(p, ops, s, k, n) && SlotAt(p, ops, s, n).epoch > SlotAt(p, ops, s, k).epoch
    decreases n
  {
    hide SlotAt, LoggedInSince;
    var now := SlotAt(p, ops, s, n);
    if k :| 0 <= k <= n && LoggedInSince(p, ops, s, k, n) && now.epoch > SlotAt(p, ops, s, k).epoch {
      LoginLasts(p, ops, s, k, n);
      LoggedInNow(p, ops, s, k, n);
    }
    if Stale(now) {
      if n == 0 {
        SlotAtStart(p, ops, s);
      } else {
        StaleExactly(p, ops, s, n - 1);
        NextSlot(p, ops, s, n - 1);
        var before := SlotAt(p, ops, s, n - 1);
        assert Kept(before, now);
        if Stale(before) {
          var k :| 0 <= k <= n - 1 && LoggedInSince(p, ops, s, k, n - 1) && before.epoch > SlotAt(p, ops, s, k).epoch;
          LongerSince(p, ops, s, k, n);
        } else {
          SinceHere(p, ops, s, n - 1);
          LongerSince(p, ops, s, n - 1, n);
        }
      }
    }
  }

  lemma LoggedInNow(p: P11, ops: seq<Op>, s: nat, k: nat, n: nat)
    requires s < |p.slots| && k <= n <= |ops| && LoggedInSince(p, ops, s, k, n)
    ensures SlotAt(p, ops, s, n).loggedIn
  {
  }

  lemma SinceHere(p: P11, ops: seq<Op>, s: nat, k: nat)
    requires s < |p.slots| && k <= |ops| && SlotAt(p, ops, s, k).loggedIn && !Stale(SlotAt(p, ops, s, k))
    ensures LoggedInSince(p, ops, s, k, k)
  {
  }

  lemma LongerSince(p: P11, ops: seq<Op>, s: nat, k: nat, n: nat)
    requires s < |p.slots| && k < n <= |ops| && LoggedInSince(p, ops, s, k, n - 1) && SlotAt(p, ops, s, n).loggedIn
    ensures LoggedInSince(p, ops, s, k, n)
  {
  }

  lemma SlotAtStart(p: P11, ops: seq<Op>, s: nat)
    requires s < |p.slots|
    ensures SlotAt(p, ops, s, 0) == p.slots[s]
  {
    assert ops[..0] == [];
  }

  // ---- The same by calls and reports

  // A report after which the slot is cleaned: no longer the card it was.
  predicate Changed(r: Reading) {
    r.Status? && r.status != STILL_PRESENT && (r.known || (r.status != INSERTED && r.status != OTHER))
  }

  // Session h is valid as far as the module knows, so that the reader of slot s is asked about it.
  predicate Valid(p: P11, h: nat, s: nat) {
    IsHandle(p, h) && On(p.sessions[h - 1], s) && p.sessions[h - 1].state == STILL_PRESENT
  }

  // In the course of the call the reader of slot s reports that the card is no longer the one it was.
  predicate Cleans(p: P11, op: Op, s: nat)
    requires s < |p.slots|
  {
    match op
    case OpOpen(t, serial, rw, r) =>
      serial && t == s && (rw || !p.slots[s].loggedIn || p.slots[s].loginType != CKU_SO) && Changed(r)
    case OpClose(h, r, _) => Valid(p, h, s) && Changed(r)
    case OpCloseAll(_, _) => false
    case OpLogin(h, user, r, _) => (user == CKU_USER || user == CKU_SO) && Valid(p, h, s) && Changed(r)
    case OpLogout(h, r, _) => Valid(p, h, s) && Changed(r)
    case OpFindInit(h, _, r, _) => Valid(p, h, s) && Changed(r)
    case OpFind(h, _, r) => Valid(p, h, s) && Changed(r)
    case OpFindFinal(h, r) => Valid(p, h, s) && Changed(r)
    case OpGet(h, o, _, r, again, _) =>
      Valid(p, h, s)
      && (Changed(r)
          || (r.Status? && r.known && 0 < o <= |p.slots[s].objects| && !p.slots[s].objects[o - 1].cached && Changed(again)))
    case OpPoll(t, r) => t == s && Changed(r)
  }

  // How often the slot was cleaned goes up exactly in such calls.
  predicate Counts(p: P11, q: P11, s: nat, cleaned: bool)
    requires s < |p.slots|
  {
    s < |q.slots| && q.slots[s].epoch == p.slots[s].epoch + if cleaned then 1 else 0
  }

  lemma UpdateCounts(p: P11, t: nat, r: Reading, s: nat)
    requires s < |p.slots|
    ensures Counts(p, UpdateToken(p, t, r).p, s, t == s && Changed(r))
    ensures UpdateToken(p, t, r).rv == CKR_OK && UpdateToken(p, t, r).status == STILL_PRESENT ==> r.Status? && r.known
    ensures t < |p.slots| && r.Status? && r.known && !Changed(r) ==>
              UpdateToken(p, t, r) == Updated(p, CKR_OK, STILL_PRESENT)
  {
  }

  lemma GetCounts(p: P11, h: nat, r: Reading, s: nat)
    requires s < |p.slots|
    ensures Counts(p, GetSession(p, h, r).0, s, Valid(p, h, s) && Changed(r))
  {
    hide UpdateToken, Changed;
    if IsHandle(p, h) { UpdateCounts(p, p.sessions[h - 1].slot, r, s); }
  }

  lemma OpenCounts(p: P11, t: nat, serial: bool, rw: bool, r: Reading, s: nat)
    requires s < |p.slots|
    ensures Counts(p, Open(p, t, serial, rw, r).0, s, Cleans(p, OpOpen(t, serial, rw, r), s))
  {
    hide UpdateToken, Reserve, Changed;
    UpdateCounts(p.(sessions := Reserve(p.sessions).0), t, r, s);
  }

  lemma CloseCounts(p: P11, h: nat, r: Reading, bye: nat, s: nat)
    requires s < |p.slots|
    ensures Counts(p, Close(p, h, r, bye).0, s, Valid(p, h, s) && Changed(r))
  {
    hide UpdateToken, Changed;
    if IsHandle(p, h) { UpdateCounts(p, p.sessions[h - 1].slot, r, s); }
  }

  lemma {:induction false} CloseFromCounts(p: P11, i: nat, t: nat, bye: nat, rv: nat, s: nat)
    requires t < |p.slots| && s < |p.slots|
    ensures Counts(p, CloseFrom(p, i, t, bye, rv).0, s, false)
    decreases |p.sessions| - i
  {
    if i < |p.sessions| {
      if On(p.sessions[i], t) {
        var (q, last) := CloseEntry(p, i, bye);
        CloseFromCounts(q, i + 1, t, bye, last, s);
      } else {
        CloseFromCounts(p, i + 1, t, bye, rv, s);
      }
    }
  }

  lemma FindInitCounts(p: P11, h: nat, template: seq<Attr>, r: Reading, load: Load, s: nat)
    requires s < |p.slots|
    ensures Counts(p, FindInit(p, h, template, r, load).0, s, Valid(p, h, s) && Changed(r))
  {
    hide UpdateToken, AddAll, Lookup, Ulong, Changed;
    GetCounts(p, h, r, s);
  }

  lemma FindCounts(p: P11, h: nat, max: nat, r: Reading, s: nat)
    requires s < |p.slots|
    ensures Counts(p, FindObjects(p, h, max, r).0, s, Valid(p, h, s) && Changed(r))
    ensures Counts(p, FindFinal(p, h, r).0, s, Valid(p, h, s) && Changed(r))
  {
    hide UpdateToken, Scan, Hopeless, Changed;
    GetCounts(p, h, r, s);
  }

  lemma GetAttributesCounts(p: P11, h: nat, o: nat, requests: seq<Request>, r: Reading, again: Reading, card: Card, s: nat)
    requires s < |p.slots|
    ensures Counts(p, GetAttributes(p, h, o, requests, r, again, card).0, s,
                   Cleans(p, OpGet(h, o, requests, r, again, card), s))
  {
    hide UpdateToken, ReadPair, Lookup, Ulong, AnswerAll;
    GetCounts(p, h, r, s);
    GetKeeps(p, h, r);
    if IsHandle(p, h) {
      UpdateCounts(p, p.sessions[h - 1].slot, r, s);
      UpdateCounts(p, p.sessions[h - 1].slot, again, s);
    }
  }

  lemma CallCounts(p: P11, op: Op, s: nat)
    requires s < |p.slots|
    ensures Counts(p, Call(p, op).0, s, Cleans(p, op, s))
  {
    hide UpdateToken, Open, Close, CloseFrom, FindInit, FindObjects, FindFinal, GetAttributes, GetSession, Changed;
    match op
    case OpOpen(t, serial, rw, r) => OpenCounts(p, t, serial, rw, r, s);
    case OpClose(h, r, bye) => CloseCounts(p, h, r, bye, s);
    case OpCloseAll(t, bye) => if t < |p.slots| { CloseFromCounts(p, 0, t, bye, CKR_OK, s); }
    case OpLogin(h, user, r, answer) => GetCounts(p, h, r, s);
    case OpLogout(h, r, answer) => GetCounts(p, h, r, s);
    case OpFindInit(h, template, r, load) => FindInitCounts(p, h, template, r, load, s);
    case OpFind(h, max, r) => FindCounts(p, h, max, r, s);
    case OpFindFinal(h, r) => FindCounts(p, h, 0, r, s);
    case OpGet(h, o, requests, r, again, card) => GetAttributesCounts(p, h, o, requests, r, again, card, s);
    case OpPoll(t, r) => UpdateCounts(p, t, r, s);
  }

  predicate CleansAt(p: P11, ops: seq<Op>, s: nat, m: nat)
    requires s < |p.slots| && m < |ops|
  {
    SlotsStay(p, ops[..m]);
    Cleans(After(p, ops[..m]), ops[m], s)
  }

  lemma NextEpoch(p: P11, ops: seq<Op>, s: nat, m: nat)
    requires s < |p.slots| && m < |ops|
    ensures SlotAt(p, ops, s, m + 1).epoch == SlotAt(p, ops, s, m).epoch + if CleansAt(p, ops, s, m) then 1 else 0
  {
    hide Call, Cleans;
    var first := ops[..m + 1];
    AfterLast(p, first);
    assert first[..m] == ops[..m];
    SlotsStay(p, ops[..m]);
    CallCounts(After(p, ops[..m]), ops[m], s);
  }

  lemma {:induction false} EpochRises(p: P11, ops: seq<Op>, s: nat, k: nat, n: nat) returns (m: nat)
    requires s < |p.slots| && k <= n <= |ops| && SlotAt(p, ops, s, n).epoch > SlotAt(p, ops, s, k).epoch
    ensures k <= m < n && CleansAt(p, ops, s, m)
    decreases n
  {
    hide SlotAt, CleansAt;
    NextEpoch(p, ops, s, n - 1);
    if CleansAt(p, ops, s, n - 1) { m := n - 1; } else { m := EpochRises(p, ops, s, k, n - 1); }
  }

  lemma {:induction false} NotAhead(p: P11, ops: seq<Op>, s: nat, n: nat)
    requires s < |p.slots| && n <= |ops| && !Stale(p.slots[s])
    ensures SlotAt(p, ops, s, n).loggedIn ==> SlotAt(p, ops, s, n).loginEpoch <= SlotAt(p, ops, s, n).epoch
    decreases n
  {
    hide SlotAt;
    if n == 0 {
      SlotAtStart(p, ops, s);
    } else {
      NotAhead(p, ops, s, n - 1);
      NextSlot(p, ops, s, n - 1);
    }
  }

  predicate InThroughout(p: P11, ops: seq<Op>, s: nat, m: nat, n: nat)
    requires s < |p.slots| && m <= n <= |ops|
  {
    forall j | m <= j <= n :: SlotAt(p, ops, s, j).loggedIn
  }

  lemma {:induction false} StaysBehind(p: P11, ops: seq<Op>, s: nat, m: nat, n: nat)
    requires s < |p.slots| && m <= n <= |ops| && InThroughout(p, ops, s, m, n)
    requires SlotAt(p, ops, s, m).loginEpoch < SlotAt(p, ops, s, m).epoch
    ensures Stale(SlotAt(p, ops, s, n)) && SlotAt(p, ops, s, n).loginEpoch < SlotAt(p, ops, s, n).epoch
    decreases n
  {
    hide SlotAt;
    if m < n {
      StaysBehind(p, ops, s, m, n - 1);
      NextSlot(p, ops, s, n - 1);
    }
  }

  /**
  Without the history: after any run of calls a slot is logged in for a card that is not the present one if and only if
  some call heard from the reader that the card has changed, while the slot was logged in, and no call since then, nor that
  one, has logged it out.
  */
  lemma StaleByReports(p: P11, ops: seq<Op>, s: nat, n: nat)
    requires s < |p.slots| && n <= |ops| && !Stale(p.slots[s])
    ensures Stale(SlotAt(p, ops, s, n)) <==>
            exists m :: 0 <= m < n && CleansAt(p, ops, s, m) && InThroughout(p, ops, s, m, n)
  {
    hide SlotAt, CleansAt;
    if Stale(SlotAt(p, ops, s, n)) {
      StaleExactly(p, ops, s, n);
      var k :| 0 <= k <= n && LoggedInSince(p, ops, s, k, n) && SlotAt(p, ops, s, n).epoch > SlotAt(p, ops, s, k).epoch;
      var m := EpochRises(p, ops, s, k, n);
      assert InThroughout(p, ops, s, m, n);
    }
    if m :| 0 <= m < n && CleansAt(p, ops, s, m) && InThroughout(p, ops, s, m, n) {
      NotAhead(p, ops, s, m);
      NextSlot(p, ops, s, m);
      NextEpoch(p, ops, s, m);
      StaysBehind(p, ops, s, m + 1, n);
    }
  }

  // ---- When a login ends

  // Who is logged in, if anybody, stays so on every slot.
  predicate SameUsers(p: P11, q: P11) {
    |q.slots| == |p.slots|
    && forall s | 0 <= s < |p.slots| :: q.slots[s].loggedIn == p.slots[s].loggedIn && q.slots[s].loginType == p.slots[s].loginType
  }

  lemma UpdateSameUsers(p: P11, t: nat, r: Reading)
    ensures SameUsers(p, UpdateToken(p, t, r).p)
  {
  }

  lemma GetSameUsers(p: P11, h: nat, r: Reading)
    ensures SameUsers(p, GetSession(p, h, r).0)
    ensures GetSession(p, h, r).1 == CKR_OK <==>
            IsHandle(p, h) && p.sessions[h - 1].slot < |p.slots| && Valid(p, h, p.sessions[h - 1].slot)
            && r == Status(STILL_PRESENT, true)
    ensures GetSession(p, h, r).1 == CKR_OK ==> GetSession(p, h, r).0 == p
  {
    if IsHandle(p, h) { UpdateSameUsers(p, p.sessions[h - 1].slot, r); }
  }

  lemma OpenSameUsers(p: P11, t: nat, serial: bool, rw: bool, r: Reading)
    ensures SameUsers(p, Open(p, t, serial, rw, r).0)
  {
    hide UpdateToken, Reserve;
    UpdateSameUsers(p.(sessions := Reserve(p.sessions).0), t, r);
  }

  lemma FindInitSameUsers(p: P11, h: nat, template: seq<Attr>, r: Reading, load: Load)
    ensures SameUsers(p, FindInit(p, h, template, r, load).0)
  {
    hide UpdateToken, AddAll, Lookup, Ulong, GetSession, Valid;
    GetSameUsers(p, h, r);
  }

  lemma FindSameUsers(p: P11, h: nat, max: nat, r: Reading)
    ensures SameUsers(p, FindObjects(p, h, max, r).0) && SameUsers(p, FindFinal(p, h, r).0)
  {
    hide UpdateToken, Scan, Hopeless, GetSession, Valid;
    GetSameUsers(p, h, r);
  }

  lemma GetAttributesSameUsers(p: P11, h: nat, o: nat, requests: seq<Request>, r: Reading, again: Reading, card: Card)
    ensures SameUsers(p, GetAttributes(p, h, o, requests, r, again, card).0)
  {
    hide UpdateToken, ReadPair, Lookup, Ulong, AnswerAll, GetSession, Valid;
    GetSameUsers(p, h, r);
    if IsHandle(p, h) { UpdateSameUsers(p, p.sessions[h - 1].slot, again); }
  }

  // The sessions in use on a slot from index i on.
  function InUseFrom(sessions: seq<Session>, i: nat, s: nat): nat
    decreases |sessions| - i
  {
    if i >= |sessions| then 0 else (if On(sessions[i], s) then 1 else 0) + InUseFrom(sessions, i + 1, s)
  }

  lemma {:induction false} ClosedOne(sessions: seq<Session>, j: nat, x: Session, i: nat, s: nat)
    requires j < i && j < |sessions|
    ensures InUseFrom(sessions[j := x], i, s) == InUseFrom(sessions, i, s)
    decreases |sessions| - i
  {
    if i < |sessions| { ClosedOne(sessions, j, x, i + 1, s); }
  }

  lemma {:induction false} CloseFromEnds(p: P11, i: nat, t: nat, bye: nat, rv: nat)
    requires t < |p.slots|
    ensures var q := CloseFrom(p, i, t, bye, rv).0;
            var n := InUseFrom(p.sessions, i, t);
            t < |q.slots| && (q.slots[t].loggedIn <==> p.slots[t].loggedIn && (n == 0 || p.slots[t].nsessions > n))
    decreases |p.sessions| - i
  {
    if i < |p.sessions| {
      if On(p.sessions[i], t) {
        var (q, last) := CloseEntry(p, i, bye);
        CloseFromEnds(q, i + 1, t, bye, last);
        ClosedOne(p.sessions, i, Closed(p.sessions[i]), i + 1, t);
      } else {
        CloseFromEnds(p, i + 1, t, bye, rv);
      }
    }
  }

  // The call logs slot s out: a logout on a valid session of it, a closing that takes its last session by its count, or
  // a closing of all its sessions that reaches the last one.
  predicate LogsOut(p: P11, op: Op, s: nat)
    requires s < |p.slots|
  {
    match op
    case OpLogout(h, r, _) => Valid(p, h, s) && r == Status(STILL_PRESENT, true)
    case OpClose(h, _, _) => IsHandle(p, h) && p.sessions[h - 1].slot == s && p.slots[s].nsessions <= 1
    case OpCloseAll(t, _) => t == s && 0 < p.slots[s].nsessions <= InUseFrom(p.sessions, 0, s)
    case _ => false
  }

  // The call logs slot s in.
  predicate LogsInto(p: P11, op: Op, s: nat) {
    op.OpLogin? && (op.user == CKU_USER || op.user == CKU_SO) && Valid(p, op.h, s) && op.r == Status(STILL_PRESENT, true)
    && op.answer == CKR_OK
  }

  /**
  Exactly these calls change whether a slot is logged in, and only a login changes who it was.
  */
  lemma LoginChanges(p: P11, op: Op, s: nat)
    requires s < |p.slots|
    ensures var a, b := p.slots[s], Call(p, op).0.slots;
            s < |b|
            && (b[s].loggedIn <==> if a.loggedIn then !LogsOut(p, op, s) else LogsInto(p, op, s))
            && b[s].loginType == if !a.loggedIn && LogsInto(p, op, s) then op.user else a.loginType
  {
    hide UpdateToken, Open, CloseFrom, FindInit, FindObjects, FindFinal, GetAttributes, GetSession;
    match op
    case OpOpen(t, serial, rw, r) => OpenSameUsers(p, t, serial, rw, r);
    case OpClose(h, r, bye) => CloseEnds(p, h, r, bye, s);
    case OpCloseAll(t, bye) =>
      if t < |p.slots| {
        CloseFromEnds(p, 0, t, bye, CKR_OK);
        CloseFromUsers(p, 0, t, bye, CKR_OK);
        SessionSafety.CloseFromShape(p, 0, t, bye, CKR_OK);
      }
    case OpLogin(h, user, r, answer) => GetSameUsers(p, h, r);
    case OpLogout(h, r, answer) => GetSameUsers(p, h, r);
    case OpFindInit(h, template, r, load) => FindInitSameUsers(p, h, template, r, load);
    case OpFind(h, max, r) => FindSameUsers(p, h, max, r);
    case OpFindFinal(h, r) => FindSameUsers(p, h, 0, r);
    case OpGet(h, o, requests, r, again, card) => GetAttributesSameUsers(p, h, o, requests, r, again, card);
    case OpPoll(t, r) => UpdateSameUsers(p, t, r);
  }

  lemma {:induction false} CloseFromUsers(p: P11, i: nat, t: nat, bye: nat, rv: nat)
    requires t < |p.slots|
    ensures var q := CloseFrom(p, i, t, bye, rv).0; t < |q.slots| && q.slots[t].loginType == p.slots[t].loginType
    decreases |p.sessions| - i
  {
    if i < |p.sessions| {
      if On(p.sessions[i], t) {
        var (q, last) := CloseEntry(p, i, bye);
        CloseFromUsers(q, i + 1, t, bye, last);
      } else {
        CloseFromUsers(p, i + 1, t, bye, rv);
      }
    }
  }

  lemma CloseEnds(p: P11, h: nat, r: Reading, bye: nat, s: nat)
    requires s < |p.slots|
    ensures var q := Close(p, h, r, bye).0;
            s < |q.slots|
            && (q.slots[s].loggedIn <==>
                p.slots[s].loggedIn && !(IsHandle(p, h) && p.sessions[h - 1].slot == s && p.slots[s].nsessions <= 1))
            && q.slots[s].loginType == p.slots[s].loginType
  {
    hide UpdateToken;
    if IsHandle(p, h) {
      UpdateSameUsers(p, p.sessions[h - 1].slot, r);
      UpdateSessions(p, p.sessions[h - 1].slot, r);
    }
  }

  lemma UpdateSessions(p: P11, t: nat, r: Reading)
    ensures var q := UpdateToken(p, t, r).p;
            |q.sessions| == |p.sessions| && |q.slots| == |p.slots|
            && (forall i | 0 <= i < |p.sessions| :: q.sessions[i].slot == p.sessions[i].slot)
            && (forall u | 0 <= u < |p.slots| :: q.slots[u].nsessions == p.slots[u].nsessions)
  {
  }

  /**
  Over every run: a slot is logged in if and only if some call logged it in and none since has logged it out; or it was
  logged in at the beginning and none has.
  */
  lemma {:induction false} LoggedInExactly(p: P11, ops: seq<Op>, s: nat, n: nat)
    requires s < |p.slots| && n <= |ops|
    ensures SlotAt(p, ops, s, n).loggedIn <==>
            || (p.slots[s].loggedIn && forall j | 0 <= j < n :: !LogsOutAt(p, ops, s, j))
            || exists k :: 0 <= k < n && LogsIntoAt(p, ops, s, k) && forall j | k < j < n :: !LogsOutAt(p, ops, s, j)
    decreases n
  {
    hide SlotAt, LogsOutAt, LogsIntoAt;
    if n == 0 {
      SlotAtStart(p, ops, s);
    } else {
      LoggedInExactly(p, ops, s, n - 1);
      NextLogin(p, ops, s, n - 1);
    }
  }

  predicate LogsOutAt(p: P11, ops: seq<Op>, s: nat, j: nat)
    requires s < |p.slots| && j < |ops|
  {
    SlotsStay(p, ops[..j]);
    LogsOut(After(p, ops[..j]), ops[j], s)
  }

  predicate LogsIntoAt(p: P11, ops: seq<Op>, s: nat, j: nat)
    requires s < |p.slots| && j < |ops|
  {
    LogsInto(After(p, ops[..j]), ops[j], s)
  }

  lemma NextLogin(p: P11, ops: seq<Op>, s: nat, j: nat)
    requires s < |p.slots| && j < |ops|
    ensures SlotAt(p, ops, s, j + 1).loggedIn <==>
            if SlotAt(p, ops, s, j).loggedIn then !LogsOutAt(p, ops, s, j) else LogsIntoAt(p, ops, s, j)
    ensures !(LogsOutAt(p, ops, s, j) && LogsIntoAt(p, ops, s, j))
  {
    hide Call;
    var first := ops[..j + 1];
    AfterLast(p, first);
    assert first[..j] == ops[..j];
    SlotsStay(p, ops[..j]);
    LoginChanges(After(p, ops[..j]), ops[j], s);
  }

  // It happens: the user logs in with one card, another one is put in its place, and a session that is opened for that
  // one is logged in, whatever PIN is given, without the card being asked.
  lemma LoginOutlivesCard(p: P11, still: Reading, refused: ErrorCode)
    requires Fresh(p) && |p.slots| == 1 && still == Status(STILL_PRESENT, true)
    ensures var p2 := Login(Open(p, 0, true, true, still).0, 1, CKU_USER, still, CKR_OK).0;
            var p3 := UpdateToken(p2, 0, Status(OTHER, true)).p;
            var p4 := Open(p3, 0, true, true, still).0;
            Stale(p4.slots[0]) && GetSession(p4, 2, still).1 == CKR_OK
            && Login(p4, 2, CKU_USER, still, refused) == (p4, CKR_OK)
  {
    hide Reserve, Open, UpdateToken;
    SessionSafety.OpenStill(p, 0);
    SessionSafety.ReserveShape(p.sessions);
    var p1 := Open(p, 0, true, true, still).0;
    SessionSafety.StillSame(p1, 0);
    var p2 := Login(p1, 1, CKU_USER, still, CKR_OK).0;
    OtherCard(p2, 0);
    var p3 := UpdateToken(p2, 0, Status(OTHER, true)).p;
    SessionSafety.OpenStill(p3, 0);
    SessionSafety.ReserveShape(p3.sessions);
    var p4 := Open(p3, 0, true, true, still).0;
    SessionSafety.StillSame(p4, 0);
  }

  lemma OtherCard(p: P11, s: nat)
    requires s < |p.slots|
    ensures UpdateToken(p, s, Status(OTHER, true)).p
         == P11(p.slots[s := Cleaned(p.slots[s])], Invalidate(p.sessions, s, OTHER))
  {
  }
}
