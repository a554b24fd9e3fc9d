/** What a run does with the card. */
module CardRuns {
  import opened Wrappers
  import opened StateTable
  import opened Dispatcher
  import opened Discipline
  import opened Growth
  import opened ViewerTable
  import opened ViewerMachine
  import Settling
  import SilentErrors
  import Soundness

  // What every event of a run does with the card: how its session is opened, and where a failed verification
  // leads.

  predicate Entering(a: Action, s: State) { a.Enter? && a.s == s }

  /** The verification of the card failed somewhere from index `k` on. */
  ghost predicate Invalidated(log: seq<Action>, k: nat) {
    exists i :: k <= i < |log| && log[i] == Enter(TOKEN_WAIT, Raise(DataInvalid))
  }

  /** At index `i` the card session is opened, and the reader of its data is entered next. */
  predicate Opens(log: seq<Action>, i: int) {
    && 0 <= i < |log| - 3 && Entering(log[i], TOKEN) && Entering(log[i + 3], TOKEN_ID)
    && log[i + 1] == Report(TOKEN) && log[i + 2] == Report(TOKEN_ID)
  }

  predicate PairedAt(log: seq<Action>, k: nat, i: nat)
    requires i < |log|
  {
    && (Entering(log[i], TOKEN) ==> Opens(log, i))
    && (Entering(log[i], TOKEN_ID) ==> i >= k + 3 && Opens(log, i - 3))
  }

  /** From index `k` on, TOKEN and TOKEN_ID are entered together only. */
  ghost predicate Paired(log: seq<Action>, k: nat) { forall i | k <= i < |log| :: PairedAt(log, k, i) }

  /** What a part of a run does, from `k` on. */
  ghost predicate Part(k: nat, r: Config) {
    && k <= |r.log| && Paired(r.log, k)
    && (Invalidated(r.log, k) ==> r.cur == CARD_INVALID)
  }

  lemma Join(log: seq<Action>, more: seq<Action>, k: nat)
    requires log <= more && k <= |log| && Paired(log, k) && Paired(more, |log|)
    ensures Paired(more, k)
    ensures Invalidated(more, k) <==> Invalidated(log, k) || Invalidated(more, |log|)
  {
    forall i | k <= i < |more| ensures PairedAt(more, k, i) {
      if i < |log| {
        assert more[i] == log[i] && PairedAt(log, k, i);
      } else {
        assert PairedAt(more, |log|, i);
      }
    }
    if Invalidated(log, k) {
      var i :| k <= i < |log| && log[i] == Enter(TOKEN_WAIT, Raise(DataInvalid));
      assert more[i] == log[i];
    }
  }

  /** Nothing of the kind is in `more`. */
  lemma Plain(log: seq<Action>, more: seq<Action>, k: nat)
    requires k <= |log| && Paired(log, k)
    requires forall a <- more :: !Entering(a, TOKEN) && !Entering(a, TOKEN_ID) && a != Enter(TOKEN_WAIT, Raise(DataInvalid))
    ensures Paired(log + more, k) && (Invalidated(log + more, k) <==> Invalidated(log, k))
  {
    forall i | |log| <= i < |log + more| ensures (log + more)[i] in more {}
    assert Paired(log + more, |log|);
    Join(log, log + more, k);
  }

  /** What the callbacks of the states in question can answer, and where no state leads. */
  lemma Answers(t: Table, s: State)
    requires IsViewer(t) && Forest(t) && InTable(t, s)
    ensures s == TOKEN ==> t.states[s].enter == {Succeed, Fail} && Target(t, s, StateError) == None
    ensures s == TOKEN_ID ==> t.states[s].enter == {Fail, Raise(ReadReady)}
    ensures s == CARD_INVALID ==> t.states[s].enter == {Succeed} && t.states[s].leave == {} && t.states[s].firstChild == None
    ensures t.states[s].firstChild == Some(TOKEN_ID) <==> s == TOKEN
    ensures t.states[s].firstChild != Some(TOKEN) && t.states[s].firstChild != Some(CARD_INVALID)
  {
    hide Path;
    assert t.states[s] == Def(s);
    if s == TOKEN { IsTarget(t, s, StateError); }
  }

  lemma NeverTarget(t: Table, s: State, e: Event)
    requires IsViewer(t) && Forest(t) && InTable(t, s)
    ensures Target(t, s, e) != Some(TOKEN_ID)
  {
    hide Def, Leads;
    IsTarget(t, s, e);
    if Leads(s, e).Some? {
      var i := Owner(s, e);
      OutElsewhere(Path(s)[i], e);
    }
  }

  lemma OutElsewhere(s: State, e: Event)
    requires s < STATE_COUNT && e in Def(s).out
    ensures Def(s).out[e] != TOKEN_ID
  {
    hide Path;
  }

  /** An enter call. TOKEN's raises nothing that has a transition. */
  lemma {:induction false} EnterPart(t: Table, c: Config, x: State, e: Event)
    requires IsViewer(t) && WellFormed(t) && InTable(t, x) && c.cur == x
    ensures var r := EnterCall(t, c, x, e);
            && |c.log| < |r.log| && Entering(r.log[|c.log|], x) && c.log <= r.log && Paired(r.log, |c.log| + 1)
            && (Invalidated(r.log, |c.log|) ==> r.cur == CARD_INVALID)
            && (x == TOKEN ==> r.cur == TOKEN && |r.log| == |c.log| + 1 && !Invalidated(r.log, |c.log|))
            && (x != TOKEN && x != TOKEN_ID ==> Paired(r.log, |c.log|))
    decreases |c.script|, 0, 0
  {
    hide Dispatch, Opens, Def, Target, Path;
    var (a, rest) := NextAnswer(t.states[x].enter, c.script);
    var c' := Config(x, c.log + [Enter(x, a)], rest);
    var r := EnterCall(t, c, x, e);
    Answers(t, x);
    assert c'.log[|c.log|] == Enter(x, a);
    match Consequence(a, e)
    case None =>
      OwnCall(c'.log, c'.log, |c.log|);
    case Some(ev) =>
      if x == TOKEN {
        NoTransition(t, c', ev);
      } else {
        assert Dispatchable(t, x, ev);
        DispatchPart(t, c', ev);
        Join(c'.log, r.log, |c'.log|);
        if a == Raise(DataInvalid) && x == TOKEN_WAIT { InvalidLeaves(t, c'); }
        OwnCall(c'.log, r.log, |c.log|);
      }
  }

  lemma OwnCall(log: seq<Action>, more: seq<Action>, k: nat)
    requires |log| == k + 1 && log <= more
    ensures Invalidated(more, k) ==> log[k] == Enter(TOKEN_WAIT, Raise(DataInvalid)) || Invalidated(more, |log|)
    ensures Paired(more, |log|) && !Entering(log[k], TOKEN) && !Entering(log[k], TOKEN_ID) ==> Paired(more, k)
  {
    assert more[k] == log[k];
    if Paired(more, |log|) && !Entering(log[k], TOKEN) && !Entering(log[k], TOKEN_ID) {
      forall i | k <= i < |more| ensures PairedAt(more, k, i) {
        if i > k { assert PairedAt(more, |log|, i); }
      }
    }
  }

  lemma {:induction false} DescendPart(t: Table, c: Config, e: Event)
    requires IsViewer(t) && WellFormed(t) && InTable(t, c.cur) && c.cur != TOKEN
    ensures c.log <= Descend(t, c, e).log && Part(|c.log|, Descend(t, c, e))
    decreases |c.script|, 1, |t.states| - t.level[c.cur]
  {
    hide EnterCall, Opens, Def, Target, Path;
    assert Linked(t, c.cur);
    Answers(t, c.cur);
    match t.states[c.cur].firstChild
    case None =>
    case Some(child) =>
      var c1 := Config(child, c.log + [Report(child)], c.script);
      EnterPart(t, c1, child, e);
      var c2 := EnterCall(t, c1, child, e);
      OwnCall(c1.log, c2.log, |c.log|);
      if c2.cur == child {
        DescendPart(t, c2, e);
        Join(c2.log, Descend(t, c2, e).log, |c.log|);
      }
  }

  /** Below TOKEN its reader is entered, whatever opening the session answered. */
  lemma OpenPart(t: Table, c: Config, e: Event)
    requires IsViewer(t) && WellFormed(t) && c.cur == TOKEN && |c.log| >= 2
    requires Entering(c.log[|c.log| - 2], TOKEN) && c.log[|c.log| - 1] == Report(TOKEN)
    ensures c.log <= Descend(t, c, e).log && Part(|c.log| - 2, Descend(t, c, e))
    decreases |c.script|, 1, |t.states| - t.level[c.cur]
  {
    hide EnterCall, Def, Target, Path, Opens;
    assert Linked(t, TOKEN);
    Answers(t, TOKEN);
    Answers(t, TOKEN_ID);
    var k := |c.log| - 2;
    var c1 := Config(TOKEN_ID, c.log + [Report(TOKEN_ID)], c.script);
    EnterPart(t, c1, TOKEN_ID, e);
    var c2 := EnterCall(t, c1, TOKEN_ID, e);
    assert c2.log[k] == c.log[k] && c2.log[k + 1] == c.log[k + 1] && c2.log[k + 2] == Report(TOKEN_ID);
    assert Opens(c2.log, k) by { OpensIs(c2.log, k); }
    forall i | k <= i < |c2.log| ensures PairedAt(c2.log, k, i) {
      if i > |c1.log| { assert PairedAt(c2.log, |c1.log| + 1, i); }
    }
    assert Invalidated(c2.log, k) ==> Invalidated(c2.log, |c1.log|);
    if c2.cur == TOKEN_ID {
      assert Linked(t, TOKEN_ID);
      DescendPart(t, c2, e);
      Join(c2.log, Descend(t, c2, e).log, k);
    }
  }

  lemma OpensIs(log: seq<Action>, i: nat)
    requires i + 3 < |log| && Entering(log[i], TOKEN) && Entering(log[i + 3], TOKEN_ID)
    requires log[i + 1] == Report(TOKEN) && log[i + 2] == Report(TOKEN_ID)
    ensures Opens(log, i)
  {
  }

  /** Parents that keep still do nothing of the kind. */
  lemma {:induction false} ParentsPart(t: Table, c: Config, path: seq<State>, e: Event)
    requires IsViewer(t) && WellFormed(t) && InTable(t, c.cur) && forall s <- path :: InTable(t, s) && Quiet(t, s)
    ensures var r := EnterParents(t, c, path, e);
            r.cur == c.cur && c.log <= r.log && Paired(r.log, |c.log|) && !Invalidated(r.log, |c.log|)
    decreases |path|
  {
    hide Opens, Def, Target, Path, Dispatch;
    if path != [] {
      var s := path[0];
      Answers(t, s);
      var c1 := c.Log(Report(s));
      var c2 := EnterCall(t, c1, s, e);
      assert c2.cur == c.cur && c2.log == c1.log + [Enter(s, Succeed)];
      assert c2.log == c.log + [Report(s), Enter(s, Succeed)];
      Plain(c.log, [Report(s), Enter(s, Succeed)], |c.log|);
      ParentsPart(t, c2, path[1..], e);
      Join(c2.log, EnterParents(t, c2, path[1..], e).log, |c.log|);
    }
  }

  lemma {:induction false} LeaveDownPart(t: Table, c: Config, chain: seq<State>, n: nat)
    requires forall s <- chain :: InTable(t, s)
    ensures var r := LeaveDown(t, c, chain, n);
            c.log <= r.log && Paired(r.log, |c.log|) && !Invalidated(r.log, |c.log|)
    decreases |chain|
  {
    hide Opens;
    if |chain| > n {
      var c1 := LeaveCall(t, c, chain[|chain| - 1]).0;
      Plain(c.log, [Leave(chain[|chain| - 1], LeaveCall(t, c, chain[|chain| - 1]).1)], |c.log|);
      LeaveDownPart(t, c1, chain[..|chain| - 1], n);
      Join(c1.log, LeaveDown(t, c1, chain[..|chain| - 1], n).log, |c.log|);
    }
  }

  lemma {:induction false} ArrivePart(t: Table, c: Config, x: State, n: nat, e: Event)
    requires IsViewer(t) && WellFormed(t) && InTable(t, x) && n <= t.level[x] && x != TOKEN_ID
    requires forall i | n <= i < t.level[x] :: Quiet(t, Chain(t, x)[i])
    ensures var r := Arrive(t, c, x, n, e); c.log <= r.log && Part(|c.log|, r)
    decreases |c.script|, 2, 0
  {
    hide EnterCall, Descend, EnterParents, Opens, Chain, Def, Target, Path;
    var path := ProperChain(t, x)[n..];
    Settling.PathQuiet(t, x, n);
    SilentErrors.SilentParents(t, c.(cur := x), path, e);
    ParentsPart(t, c.(cur := x), path, e);
    var c1 := EnterParents(t, c.(cur := x), path, e);
    EnterPart(t, c1, x, e);
    var c2 := EnterCall(t, c1, x, e);
    var c3 := c2.Log(Report(c2.cur));
    var r := Arrive(t, c, x, n, e);
    if x == TOKEN {
      OpenPart(t, c3, e);
      assert Paired(r.log, |c1.log|) && (Invalidated(r.log, |c1.log|) ==> r.cur == CARD_INVALID);
    } else {
      Plain(c2.log, [Report(c2.cur)], |c1.log|);
      if c3.cur == x {
        DescendPart(t, c3, e);
        Join(c3.log, r.log, |c1.log|);
        Answers(t, x);
        if x == CARD_INVALID { Soundness.LeafStays(t, c3, e); }
      }
    }
    Join(c1.log, r.log, |c.log|);
  }

  /** What follows after the current state has been left. */
  lemma MovePart(t: Table, c: Config, x: State, e: Event, k: nat)
    requires IsViewer(t) && WellFormed(t) && InTable(t, c.cur) && Dispatchable(t, c.cur, e) && Target(t, c.cur, e) == Some(x)
    requires k <= |c.log| && Paired(c.log, k) && !Invalidated(c.log, k)
    ensures var n := Shared(t, c.cur, x);
            var r := Arrive(t, LeaveDown(t, c, ProperChain(t, c.cur), n), x, n, e);
            c.log <= r.log && Part(k, r)
    decreases |c.script|, 2, 1
  {
    hide Arrive, LeaveDown, Opens, Chain, Def, Target, Path;
    var n := Shared(t, c.cur, x);
    NeverTarget(t, c.cur, e);
    assert ParentsQuiet(t, c.cur, e);
    LeaveDownPart(t, c, ProperChain(t, c.cur), n);
    var c3 := LeaveDown(t, c, ProperChain(t, c.cur), n);
    Join(c.log, c3.log, k);
    ArrivePart(t, c3, x, n, e);
    Join(c3.log, Arrive(t, c3, x, n, e).log, k);
  }

  lemma {:induction false} DispatchPart(t: Table, c: Config, e: Event)
    requires IsViewer(t) && WellFormed(t) && InTable(t, c.cur) && Dispatchable(t, c.cur, e)
    ensures var r := Dispatch(t, c, e); c.log <= r.log && Part(|c.log|, r)
    decreases |c.script|, 3, 0
  {
    hide Arrive, LeaveDown, Opens, Chain, Def, Target, Path, IsViewer, Paired, Invalidated;
    if Target(t, c.cur, e).Some? {
      var x := Target(t, c.cur, e).value;
      var (c1, ok) := LeaveCall(t, c, c.cur);
      NothingYet(c.log);
      Plain(c.log, [Leave(c.cur, ok)], |c.log|);
      if ok || e == StateError {
        MovePart(t, c1, x, e, |c.log|);
      } else {
        Answers(t, c.cur);
        DispatchPart(t, c1, StateError);
        var c2 := Dispatch(t, c1, StateError);
        Join(c1.log, c2.log, |c.log|);
        if c2.cur == c.cur { MovePart(t, c2, x, e, |c.log|); }
      }
    } else {
      NothingYet(c.log);
    }
  }

  lemma NothingYet(log: seq<Action>)
    ensures Paired(log, |log|) && !Invalidated(log, |log|)
  {
  }

  // ----- Whole runs ---------------------------------------------------------------------------

  lemma RunLast(t: Table, script: seq<Answer>, events: seq<Event>)
    requires IsViewer(t) && WellFormed(t) && events != []
    ensures var n := |events| - 1;
            var c := ViewerRun(t, script, events[..n]);
            Leaf(t, c.cur) && ViewerRun(t, script, events) == Dispatch(t, c, events[n])
  {
    ViewerSound(t, script, events[..|events| - 1]);
  }

  /**
  Over every run: whenever the card session is opened, whatever the card answers, the reader of its data is entered next;
  and it is entered at no other time.
  */
  lemma {:induction false} OpensEachTime(t: Table, script: seq<Answer>, events: seq<Event>)
    requires IsViewer(t) && Forest(t)
    ensures Paired(ViewerRun(t, script, events).log, 0)
    decreases |events|
  {
    hide Dispatch, ViewerRun, IsViewer;
    ViewerFacts(t);
    if events == [] {
      assert ViewerRun(t, script, events).log == [] by { NoEvents(t, script); }
    } else {
      var n := |events| - 1;
      var c := ViewerRun(t, script, events[..n]);
      OpensEachTime(t, script, events[..n]);
      RunLast(t, script, events);
      DispatchPart(t, c, events[n]);
      Join(c.log, Dispatch(t, c, events[n]).log, 0);
    }
  }

  lemma NoEvents(t: Table, script: seq<Answer>)
    requires IsViewer(t) && Forest(t)
    ensures ViewerRun(t, script, []) == Config(LIBOPEN, [], script)
  {
  }

  /** An event in whose handling the verification of the card fails ends in CARD_INVALID, with the session closed. */
  lemma FailedVerification(t: Table, script: seq<Answer>, events: seq<Event>)
    requires IsViewer(t) && Forest(t) && events != []
    ensures var c, r := ViewerRun(t, script, events[..|events| - 1]), ViewerRun(t, script, events);
            Invalidated(r.log, |c.log|) ==> r.cur == CARD_INVALID && !Open(LIBOPEN, r.log, TOKEN)
  {
    hide Dispatch, ViewerRun, Replay, Def;
    ViewerFacts(t);
    var n := |events| - 1;
    var c, r := ViewerRun(t, script, events[..n]), ViewerRun(t, script, events);
    RunLast(t, script, events);
    DispatchPart(t, c, events[n]);
    if Invalidated(r.log, |c.log|) {
      ViewerSound(t, script, events);
      OpenIffActive(t, LIBOPEN, r.log, TOKEN);
      IsPath(t, CARD_INVALID);
      var stack := Replay(t, LIBOPEN, r.log).stack;
      assert stack[..|stack|] == stack;
    }
  }

  /** It happens: a card is inserted, its session cannot be opened, and its data is read all the same. */
  lemma FailedOpen(t: Table, c: Config)
    requires IsViewer(t) && Forest(t) && c.cur == READY && c.script != [] && c.script[0] == Fail
    ensures var log := Dispatch(t, c, TokenInserted).log;
            exists i | |c.log| <= i < |log| - 3 :: log[i] == Enter(TOKEN, Fail) && Entering(log[i + 3], TOKEN_ID)
  {
    hide Dispatch, Opens;
    ViewerFacts(t);
    assert t.states[READY] == Def(READY);
    var i := TokenFails(t, c);
    DispatchPart(t, c, TokenInserted);
    var log := Dispatch(t, c, TokenInserted).log;
    assert PairedAt(log, |c.log|, i);
    OpensTo(log, i);
  }

  lemma TokenFails(t: Table, c: Config) returns (i: nat)
    requires IsViewer(t) && Forest(t) && c.cur == READY && c.script != [] && c.script[0] == Fail
    ensures var log := Dispatch(t, c, TokenInserted).log; |c.log| <= i < |log| && log[i] == Enter(TOKEN, Fail)
  {
    hide Arrive, LeaveDown, Target, Path, Chain;
    InsertedMoves(t);
    Answers(t, TOKEN);
    var c1 := LeaveCall(t, c, READY).0;
    var c3 := LeaveDown(t, c1, ProperChain(t, READY), 1);
    LeavesSilently(t, c1);
    ArriveGrows(t, c3, TOKEN, 1, TokenInserted);
    i := if c3.log + [Enter(TOKEN, Fail)] <= Dispatch(t, c, TokenInserted).log then |c3.log| else |c3.log| + 1;
  }

  lemma InsertedMoves(t: Table)
    requires IsViewer(t) && Forest(t)
    ensures Target(t, READY, TokenInserted) == Some(TOKEN) && t.states[READY].leave == {}
    ensures Shared(t, READY, TOKEN) == 1 == t.level[TOKEN] && Chain(t, TOKEN)[1] == TOKEN
  {
    ViewerFacts(t);
    IsTarget(t, READY, TokenInserted);
    IsPath(t, READY);
    IsPath(t, TOKEN);
    assert t.states[READY] == Def(READY);
    SharesAtLeast(t, READY, TOKEN, 1);
  }

  lemma OpensTo(log: seq<Action>, i: int)
    requires Opens(log, i)
    ensures 0 <= i < |log| - 3 && Entering(log[i + 3], TOKEN_ID)
  {
  }

  lemma LeavesSilently(t: Table, c: Config)
    requires IsViewer(t) && Forest(t)
    ensures var r := LeaveDown(t, c, ProperChain(t, READY), 1); r.script == c.script && |c.log| <= |r.log|
  {
    IsPath(t, READY);
    assert ProperChain(t, READY) == [CALLBACKS, NO_TOKEN];
    assert t.states[NO_TOKEN] == Def(NO_TOKEN);
    var c1 := LeaveCall(t, c, NO_TOKEN).0;
    assert [CALLBACKS, NO_TOKEN][..1] == [CALLBACKS];
    assert LeaveDown(t, c1, [CALLBACKS], 1) == c1;
  }
}
