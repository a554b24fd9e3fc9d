/** The card is read before it is used. */
module CardReading {
  import opened Wrappers
  import opened StateTable
  import opened Dispatcher
  import opened Growth
  import opened Ends
  import opened ViewerTable
  import opened ViewerMachine
  import CardRuns
  import Settling
  import SilentErrors
  import Soundness

  // On the log alone: in every run in which the callbacks do what they can do, the card's verification starts only after
  // its data and then its certificates were read, since the card session was opened.

  /** How far the card was read since TOKEN was last entered: 0 no session, 1 open, 2 its data, 3 its certificates. */
  function Stage(log: seq<Action>): nat {
    if log == [] then 0
    else
      var before := Stage(log[..|log| - 1]);
      match log[|log| - 1]
      case Enter(s, a) =>
        if s == TOKEN then 1
        else if s == TOKEN_ID && a == Raise(ReadReady) && before == 1 then 2
        else if s == TOKEN_CERTS && a == Raise(ReadReady) && before == 2 then 3
        else before
      case Leave(s, _) => if s == TOKEN then 0 else before
      case Report(_) => before
  }

  /** From index `k` on, TOKEN_CERTS is entered when the data was read, and TOKEN_WAIT when the certificates were. */
  ghost predicate InOrder(log: seq<Action>, k: nat) {
    forall i | k <= i < |log| :: OrderedAt(log, i)
  }

  predicate OrderedAt(log: seq<Action>, i: nat)
    requires i < |log|
  {
    && (log[i].Enter? && log[i].s == TOKEN_CERTS ==> Stage(log[..i]) == 2)
    && (log[i].Enter? && log[i].s == TOKEN_WAIT ==> Stage(log[..i]) == 3)
  }

  /** The readers, which never rest. */
  predicate Reads(s: State) { s == TOKEN_ID || s == TOKEN_CERTS }

  /** READ_READY from a reader comes only when it has read. */
  predicate Ready(c: Config, e: Event) {
    && (e == ReadReady && c.cur == TOKEN_ID ==> Stage(c.log) == 2)
    && (e == ReadReady && c.cur == TOKEN_CERTS ==> Stage(c.log) == 3)
  }

  /** What a part of a run does, after `k` actions. */
  ghost predicate Part(k: nat, r: Config) { k <= |r.log| && InOrder(r.log, k) && !Reads(r.cur) }

  lemma StageOne(log: seq<Action>, a: Action)
    ensures Stage(log + [a]) ==
            if a.Enter? && a.s == TOKEN then 1
            else if a == Enter(TOKEN_ID, Raise(ReadReady)) && Stage(log) == 1 then 2
            else if a == Enter(TOKEN_CERTS, Raise(ReadReady)) && Stage(log) == 2 then 3
            else if a.Leave? && a.s == TOKEN then 0 else Stage(log)
  {
    assert (log + [a])[..|log|] == log;
  }

  lemma Join(log: seq<Action>, more: seq<Action>, k: nat)
    requires log <= more && k <= |log| && InOrder(log, k) && InOrder(more, |log|)
    ensures InOrder(more, k)
  {
    forall i | k <= i < |more| ensures OrderedAt(more, i) {
      if i < |log| {
        assert more[i] == log[i] && more[..i] == log[..i] && OrderedAt(log, i);
      }
    }
  }

  lemma JoinOne(log: seq<Action>, a: Action, k: nat)
    requires k <= |log| && InOrder(log, k)
    requires a.Enter? ==> (a.s == TOKEN_CERTS ==> Stage(log) == 2) && (a.s == TOKEN_WAIT ==> Stage(log) == 3)
    ensures InOrder(log + [a], k)
  {
    var more := log + [a];
    forall i | k <= i < |more| ensures OrderedAt(more, i) {
      if i < |log| {
        assert more[i] == log[i] && more[..i] == log[..i] && OrderedAt(log, i);
      } else {
        assert more[..i] == log;
      }
    }
  }

  // ----- Where the transitions lead -----------------------------------------------------------

  lemma OutToReading(s: State, e: Event)
    requires e in Def(s).out
    ensures Def(s).out[e] == TOKEN_CERTS ==> s == TOKEN_ID && e == ReadReady
    ensures Def(s).out[e] == TOKEN_WAIT ==> s == TOKEN_CERTS && e == ReadReady
    ensures e == StateError ==> Def(s).out[e] != TOKEN && Def(s).out[e] != TOKEN_CERTS
  {
    hide Path;
  }

  lemma OnPathOf(s: State, i: nat)
    requires s < STATE_COUNT && i < |Path(s)| && Reads(Path(s)[i])
    ensures Path(s)[i] == s
  {
  }

  lemma TargetsOfReading(t: Table, s: State, e: Event)
    requires IsViewer(t) && Forest(t) && InTable(t, s)
    ensures Target(t, s, e) != Some(TOKEN_ID)
    ensures Target(t, s, e) == Some(TOKEN_CERTS) ==> s == TOKEN_ID && e == ReadReady
    ensures Target(t, s, e) == Some(TOKEN_WAIT) ==> s == TOKEN_CERTS && e == ReadReady
    ensures e == StateError ==> Target(t, s, e) != Some(TOKEN) && Target(t, s, e) != Some(TOKEN_CERTS)
    ensures Reads(s) && (e == ReadReady || e == StateError) ==> Target(t, s, e).Some?
    ensures s == TOKEN && Dispatchable(t, s, e) ==> Target(t, s, e) == None
  {
    hide Def, Leads, Target, Path;
    IsTarget(t, s, e);
    CardRuns.NeverTarget(t, s, e);
    CardRuns.Answers(t, s);
    if Leads(s, e).Some? {
      var i := Owner(s, e);
      OutToReading(Path(s)[i], e);
      if Reads(Path(s)[i]) { OnPathOf(s, i); }
    }
    if Reads(s) { ReadersLead(s, e); }
    if s == TOKEN { OnlyFails(t, e); }
  }

  lemma ReadersLead(s: State, e: Event)
    requires Reads(s)
    ensures e == ReadReady || e == StateError ==> Leads(s, e).Some?
  {
  }

  lemma OnlyFails(t: Table, e: Event)
    requires IsViewer(t)
    ensures Dispatchable(t, TOKEN, e) ==> e == StateError
  {
    assert t.states[TOKEN] == Def(TOKEN);
  }

  lemma Below(t: Table, s: State)
    requires IsViewer(t) && Forest(t) && InTable(t, s)
    ensures t.states[s].firstChild != Some(TOKEN_CERTS) && t.states[s].firstChild != Some(TOKEN_WAIT)
    ensures s == TOKEN_CERTS ==> t.states[s].enter == {Fail, Raise(ReadReady)}
    ensures t.states[s].firstChild.Some? ==> !Reads(s)
  {
    hide Path;
    assert t.states[s] == Def(s);
  }

  // ----- Every part of a run ------------------------------------------------------------------

  /** When the enter callback of `x` may run. */
  predicate MayRun(log: seq<Action>, x: State, e: Event) {
    && (x == TOKEN_ID ==> Stage(log) == 1) && (x == TOKEN_CERTS ==> Stage(log) == 2) && (x == TOKEN_WAIT ==> Stage(log) == 3)
    && (e == StateError ==> x != TOKEN && !Reads(x))
  }

  lemma {:induction false} EnterPart(t: Table, c: Config, x: State, e: Event)
    requires IsViewer(t) && WellFormed(t) && InTable(t, x) && c.cur == x && MayRun(c.log, x, e)
    requires Real(t, EnterCall(t, c, x, e).log, |c.log|)
    ensures var r := EnterCall(t, c, x, e);
            c.log <= r.log && Part(|c.log|, r) && (x == TOKEN ==> r.cur == TOKEN && Stage(r.log) == 1)
    decreases |c.script|, 0, 0
  {
    hide Dispatch, Def, Target, Path, Stage, OrderedAt;
    var (a, rest) := NextAnswer(t.states[x].enter, c.script);
    var c' := Config(x, c.log + [Enter(x, a)], rest);
    var r := EnterCall(t, c, x, e);
    CardRuns.Answers(t, x);
    Below(t, x);
    JoinOne(c.log, Enter(x, a), |c.log|);
    StageOne(c.log, Enter(x, a));
    if Consequence(a, e).Some? { DispatchGrows(t, c', Consequence(a, e).value); }
    assert r.log[|c.log|] == Enter(x, a) && Given(t, r.log[|c.log|]);
    match Consequence(a, e)
    case None =>
    case Some(ev) =>
      if x == TOKEN {
        NoTransition(t, c', ev);
      } else {
        assert Dispatchable(t, x, ev);
        RealPart(t, r.log, r.log, |c.log|, |c'.log|);
        DispatchPart(t, c', ev);
        Join(c'.log, r.log, |c.log|);
      }
  }

  lemma {:induction false} DescendPart(t: Table, c: Config, e: Event)
    requires IsViewer(t) && WellFormed(t) && InTable(t, c.cur) && !Reads(c.cur)
    requires c.cur == TOKEN ==> Stage(c.log) == 1 && e != StateError
    requires Real(t, Descend(t, c, e).log, |c.log|)
    ensures c.log <= Descend(t, c, e).log && Part(|c.log|, Descend(t, c, e))
    decreases |c.script|, 1, |t.states| - t.level[c.cur]
  {
    hide EnterCall, Def, Target, Path, Stage, OrderedAt;
    assert Linked(t, c.cur);
    CardRuns.Answers(t, c.cur);
    Below(t, c.cur);
    match t.states[c.cur].firstChild
    case None =>
    case Some(child) =>
      var c1 := Config(child, c.log + [Report(child)], c.script);
      var c2 := EnterCall(t, c1, child, e);
      var r := Descend(t, c, e);
      JoinOne(c.log, Report(child), |c.log|);
      StageOne(c.log, Report(child));
      EnterGrows(t, c1, child, e);
      if c2.cur == child { DescendGrows(t, c2, e); }
      RealPart(t, c2.log, r.log, |c.log|, |c1.log|);
      EnterPart(t, c1, child, e);
      Join(c1.log, c2.log, |c.log|);
      if c2.cur == child {
        RealPart(t, r.log, r.log, |c.log|, |c2.log|);
        DescendPart(t, c2, e);
        Join(c2.log, r.log, |c.log|);
      }
  }

  lemma {:induction false} ParentsPart(t: Table, c: Config, path: seq<State>, e: Event)
    requires IsViewer(t) && WellFormed(t) && InTable(t, c.cur) && forall s <- path :: InTable(t, s) && Quiet(t, s)
    ensures var r := EnterParents(t, c, path, e);
            r.cur == c.cur && c.log <= r.log && InOrder(r.log, |c.log|) && Stage(r.log) == Stage(c.log)
    decreases |path|
  {
    hide Def, Target, Path, Dispatch, Stage, OrderedAt;
    if path != [] {
      var s := path[0];
      CardRuns.Answers(t, s);
      Noisy(t, s);
      var c1 := c.Log(Report(s));
      var c2 := EnterCall(t, c1, s, e);
      assert c2.cur == c.cur && c2.log == c1.log + [Enter(s, Succeed)];
      JoinOne(c.log, Report(s), |c.log|);
      StageOne(c.log, Report(s));
      JoinOne(c1.log, Enter(s, Succeed), |c.log|);
      StageOne(c1.log, Enter(s, Succeed));
      ParentsPart(t, c2, path[1..], e);
      Join(c2.log, EnterParents(t, c2, path[1..], e).log, |c.log|);
    }
  }

  lemma Noisy(t: Table, s: State)
    requires IsViewer(t) && InTable(t, s) && Quiet(t, s)
    ensures s != TOKEN && s != TOKEN_WAIT && !Reads(s)
  {
    hide Path;
    assert t.states[s] == Def(s);
  }

  lemma {:induction false} LeaveDownPart(t: Table, c: Config, chain: seq<State>, n: nat)
    requires forall s <- chain :: InTable(t, s)
    ensures var r := LeaveDown(t, c, chain, n); c.log <= r.log && InOrder(r.log, |c.log|)
    decreases |chain|
  {
    hide OrderedAt, Stage;
    if |chain| > n {
      var c1 := LeaveCall(t, c, chain[|chain| - 1]).0;
      JoinOne(c.log, Leave(chain[|chain| - 1], LeaveCall(t, c, chain[|chain| - 1]).1), |c.log|);
      LeaveDownPart(t, c1, chain[..|chain| - 1], n);
      Join(c1.log, LeaveDown(t, c1, chain[..|chain| - 1], n).log, |c.log|);
    }
  }

  lemma {:induction false} ArrivePart(t: Table, c: Config, x: State, n: nat, e: Event)
    requires IsViewer(t) && WellFormed(t) && InTable(t, x) && n <= t.level[x] && x != TOKEN_ID && MayRun(c.log, x, e)
    requires forall i | n <= i < t.level[x] :: Quiet(t, Chain(t, x)[i])
    requires Real(t, Arrive(t, c, x, n, e).log, |c.log|)
    ensures var r := Arrive(t, c, x, n, e); c.log <= r.log && Part(|c.log|, r)
    decreases |c.script|, 2, 0
  {
    hide EnterCall, Descend, EnterParents, Chain, Def, Target, Path, Stage, OrderedAt;
    var path := ProperChain(t, x)[n..];
    Settling.PathQuiet(t, x, n);
    SilentErrors.SilentParents(t, c.(cur := x), path, e);
    ParentsPart(t, c.(cur := x), path, e);
    var c1 := EnterParents(t, c.(cur := x), path, e);
    var c2 := EnterCall(t, c1, x, e);
    var c3 := c2.Log(Report(c2.cur));
    var r := Arrive(t, c, x, n, e);
    EnterGrows(t, c1, x, e);
    DescendGrows(t, c3, e);
    RealPart(t, c2.log, r.log, |c.log|, |c1.log|);
    EnterPart(t, c1, x, e);
    JoinOne(c2.log, Report(c2.cur), |c1.log|);
    StageOne(c2.log, Report(c2.cur));
    Join(c1.log, c3.log, |c.log|);
    if c3.cur == x {
      RealPart(t, r.log, r.log, |c.log|, |c3.log|);
      DescendPart(t, c3, e);
      Join(c3.log, r.log, |c.log|);
    }
  }

  /** What follows after the current state has been left; `k` is where the event began. */
  lemma MovePart(t: Table, c: Config, x: State, e: Event, k: nat)
    requires IsViewer(t) && WellFormed(t) && InTable(t, c.cur) && Dispatchable(t, c.cur, e) && Target(t, c.cur, e) == Some(x)
    requires Ready(c, e) && k <= |c.log| && InOrder(c.log, k)
    requires var n := Shared(t, c.cur, x); Real(t, Arrive(t, LeaveDown(t, c, ProperChain(t, c.cur), n), x, n, e).log, k)
    ensures var n := Shared(t, c.cur, x);
            var r := Arrive(t, LeaveDown(t, c, ProperChain(t, c.cur), n), x, n, e);
            c.log <= r.log && Part(k, r)
    decreases |c.script|, 2, 1
  {
    hide Arrive, LeaveDown, Chain, Def, Target, Path, Stage, OrderedAt;
    var n := Shared(t, c.cur, x);
    var c3 := LeaveDown(t, c, ProperChain(t, c.cur), n);
    var r := Arrive(t, c3, x, n, e);
    TargetsOfReading(t, c.cur, e);
    assert ParentsQuiet(t, c.cur, e);
    LeaveDownPart(t, c, ProperChain(t, c.cur), n);
    Join(c.log, c3.log, k);
    if x == TOKEN_CERTS || x == TOKEN_WAIT { StaysIn(t, c, x); }
    ArriveGrows(t, c3, x, n, e);
    RealPart(t, r.log, r.log, k, |c3.log|);
    ArrivePart(t, c3, x, n, e);
    Join(c3.log, r.log, k);
  }

  /** From a reader to what comes next nothing else is left. */
  lemma StaysIn(t: Table, c: Config, x: State)
    requires IsViewer(t) && WellFormed(t) && Reads(c.cur) && (x == TOKEN_CERTS || x == TOKEN_WAIT)
    ensures InTable(t, c.cur) && InTable(t, x)
    ensures LeaveDown(t, c, ProperChain(t, c.cur), Shared(t, c.cur, x)) == c
  {
    hide Def, Path;
    NoisyShared(t, c.cur, x);
    assert LevelOf(c.cur) == 2 == LevelOf(x) by { ReaderLevels(); }
    Soundness.LeaveDownWhole(t, c, ProperChain(t, c.cur), 2);
  }

  lemma ReaderLevels()
    ensures LevelOf(TOKEN_ID) == LevelOf(TOKEN_CERTS) == LevelOf(TOKEN_WAIT) == 2
  {
  }

  lemma {:induction false} DispatchPart(t: Table, c: Config, e: Event)
    requires IsViewer(t) && WellFormed(t) && InTable(t, c.cur) && Dispatchable(t, c.cur, e) && Ready(c, e)
    requires Reads(c.cur) ==> e == ReadReady || e == StateError
    requires Real(t, Dispatch(t, c, e).log, |c.log|)
    ensures var r := Dispatch(t, c, e); c.log <= r.log && Part(|c.log|, r)
    decreases |c.script|, 3, 0
  {
    hide Arrive, LeaveDown, Chain, Def, Target, Path, IsViewer, Stage, OrderedAt;
    TargetsOfReading(t, c.cur, e);
    var r := Dispatch(t, c, e);
    DispatchGrows(t, c, e);
    if Target(t, c.cur, e).Some? {
      var x := Target(t, c.cur, e).value;
      var (c1, ok) := LeaveCall(t, c, c.cur);
      JoinOne(c.log, Leave(c.cur, ok), |c.log|);
      StageOne(c.log, Leave(c.cur, ok));
      if ok || e == StateError {
        MovePart(t, c1, x, e, |c.log|);
      } else {
        var c2 := Dispatch(t, c1, StateError);
        DispatchGrows(t, c1, StateError);
        if c2.cur == c.cur {
          TransitionGrows(t, c2, x, e);
        }
        RealPart(t, c2.log, r.log, |c.log|, |c1.log|);
        DispatchPart(t, c1, StateError);
        Join(c1.log, c2.log, |c.log|);
        if c2.cur == c.cur { MovePart(t, c2, x, e, |c.log|); }
      }
    }
  }

  lemma TransitionGrows(t: Table, c: Config, x: State, e: Event)
    requires Forest(t) && InTable(t, c.cur) && InTable(t, x)
    ensures var n := Shared(t, c.cur, x); c.log <= Arrive(t, LeaveDown(t, c, ProperChain(t, c.cur), n), x, n, e).log
  {
    hide Arrive, LeaveDown;
    var n := Shared(t, c.cur, x);
    LeaveDownGrows(t, c, ProperChain(t, c.cur), n);
    ArriveGrows(t, LeaveDown(t, c, ProperChain(t, c.cur), n), x, n, e);
  }

  // ----- Whole runs ---------------------------------------------------------------------------

  /**
  Over every run in which the callbacks do what they can do: TOKEN_CERTS is entered only after TOKEN_ID has read the
  card's data, and TOKEN_WAIT, which verifies them, only after TOKEN_CERTS has read the certificates, both since the card
  session was opened.
  */
  lemma {:induction false} ReadsInOrder(t: Table, script: seq<Answer>, events: seq<Event>)
    requires IsViewer(t) && Forest(t) && Real(t, ViewerRun(t, script, events).log, 0)
    ensures InOrder(ViewerRun(t, script, events).log, 0) && !Reads(ViewerRun(t, script, events).cur)
    decreases |events|
  {
    hide Dispatch, ViewerRun, IsViewer, Stage, OrderedAt;
    ViewerFacts(t);
    if events == [] {
      CardRuns.NoEvents(t, script);
    } else {
      var n := |events| - 1;
      var c, r := ViewerRun(t, script, events[..n]), ViewerRun(t, script, events);
      CardRuns.RunLast(t, script, events);
      DispatchGrows(t, c, events[n]);
      RealPart(t, c.log, r.log, 0, 0);
      ReadsInOrder(t, script, events[..n]);
      RealPart(t, r.log, r.log, 0, |c.log|);
      DispatchPart(t, c, events[n]);
      Join(c.log, r.log, 0);
    }
  }
}
