/** Where an event can end. */
module Ends {
  import opened Wrappers
  import opened StateTable
  import opened Dispatcher
  import opened Growth
  import Settling
  import SilentErrors

  // Where the handling of an event can end, as a condition on the table alone: in the states that every set of
  // ways closed under the dispatcher's rules contains. Such a set is found by following the table, without running
  // anything.

  /** Handling `e` while `from` is current can end in `to`. */
  datatype Way = Way(from: State, e: Event, to: State)

  /** Entering the current state `x` while `e` is handled can lead to `y`, by the ways of `k`. */
  ghost predicate EntersTo(t: Table, k: set<Way>, x: State, e: Event, y: State) {
    exists a: Answer :: Given(t, Enter(x, a)) && Causing(k, x, Consequence(a, e), y)
  }

  predicate Causing(k: set<Way>, x: State, ev: Option<Event>, y: State) {
    if ev == None then y == x else Way(x, ev.value, y) in k
  }

  /** Entering `x` and then the states below it along first children can lead to `y`. */
  ghost predicate LandsTo(t: Table, k: set<Way>, x: State, e: Event, y: State)
    requires Forest(t) && InTable(t, x)
    decreases |t.states| - t.level[x], 1
  {
    (y != x && EntersTo(t, k, x, e, y)) || (EntersTo(t, k, x, e, x) && GoesDownTo(t, k, x, e, y))
  }

  ghost predicate GoesDownTo(t: Table, k: set<Way>, x: State, e: Event, y: State)
    requires Forest(t) && InTable(t, x)
    decreases |t.states| - t.level[x], 0
  {
    assert Linked(t, x);
    match t.states[x].firstChild
    case None => y == x
    case Some(child) => LandsTo(t, k, child, e, y)
  }

  /** One handling of `e`, with the ways of `k` for the events that it causes. */
  ghost predicate LeadsTo(t: Table, k: set<Way>, s: State, e: Event, y: State)
    requires Forest(t) && InTable(t, s)
  {
    match Target(t, s, e)
    case None => y == s
    case Some(x) =>
      || ((e == StateError || t.states[s].leave != {Fail}) && LandsTo(t, k, x, e, y))
      || (e != StateError && Fail in t.states[s].leave
          && ((y != s && Way(s, StateError, y) in k) || (Way(s, StateError, s) in k && LandsTo(t, k, x, e, y))))
  }

  /** `k` has all ways that its ways make possible. */
  ghost predicate Closed(t: Table, k: set<Way>)
    requires Forest(t)
  {
    forall s: State, e: Event, y: State ::
      InTable(t, s) && Dispatchable(t, s, e) && LeadsTo(t, k, s, e, y) ==> Way(s, e, y) in k
  }

  /** Answers that the callbacks can give make the handling of `e` end in `y`. */
  ghost predicate CanEnd(t: Table, s: State, e: Event, y: State)
    requires Forest(t) && InTable(t, s)
  {
    exists c: Config :: c.cur == s && Dispatch(t, c, e).cur == y && Real(t, Dispatch(t, c, e).log, |c.log|)
  }

  // ----- Every end is in every closed set -----------------------------------------------------

  lemma RealPart(t: Table, log: seq<Action>, more: seq<Action>, k: nat, m: nat)
    requires log <= more && k <= m && Real(t, more, k)
    ensures Real(t, log, m)
  {
    assert forall i | 0 <= i < |log| :: log[i] == more[i];
  }

  lemma {:induction false} EnterIn(t: Table, k: set<Way>, c: Config, x: State, e: Event)
    requires QuietParents(t) && Closed(t, k) && InTable(t, x) && c.cur == x
    requires Real(t, EnterCall(t, c, x, e).log, |c.log|)
    ensures EntersTo(t, k, x, e, EnterCall(t, c, x, e).cur)
    decreases |c.script|, 0, 0
  {
    hide Dispatch, Closed;
    var (a, rest) := NextAnswer(t.states[x].enter, c.script);
    var c' := Config(x, c.log + [Enter(x, a)], rest);
    var r := EnterCall(t, c, x, e);
    if Consequence(a, e).Some? {
      DispatchGrows(t, c', Consequence(a, e).value);
    }
    assert c'.log <= r.log && r.log[|c.log|] == Enter(x, a);
    assert Given(t, Enter(x, a));
    match Consequence(a, e)
    case None =>
    case Some(ev) =>
      RealPart(t, r.log, r.log, |c.log|, |c'.log|);
      DispatchIn(t, k, c', ev);
  }

  lemma {:induction false} DescendIn(t: Table, k: set<Way>, c: Config, e: Event)
    requires QuietParents(t) && Closed(t, k) && InTable(t, c.cur)
    requires Real(t, Descend(t, c, e).log, |c.log|)
    ensures GoesDownTo(t, k, c.cur, e, Descend(t, c, e).cur)
    decreases |c.script|, 1, |t.states| - t.level[c.cur]
  {
    hide EnterCall, Closed, EntersTo;
    assert Linked(t, c.cur);
    match t.states[c.cur].firstChild
    case None =>
    case Some(child) =>
      var c1 := Config(child, c.log + [Report(child)], c.script);
      var c2 := EnterCall(t, c1, child, e);
      var r := Descend(t, c, e);
      EnterGrows(t, c1, child, e);
      if c2.cur == child {
        DescendGrows(t, c2, e);
        RealPart(t, r.log, r.log, |c.log|, |c2.log|);
        DescendIn(t, k, c2, e);
      }
      RealPart(t, c2.log, r.log, |c.log|, |c1.log|);
      EnterIn(t, k, c1, child, e);
  }

  lemma {:induction false} ArriveIn(t: Table, k: set<Way>, c: Config, x: State, n: nat, e: Event)
    requires QuietParents(t) && Closed(t, k) && InTable(t, x) && n <= t.level[x]
    requires forall i | n <= i < t.level[x] :: Quiet(t, Chain(t, x)[i])
    requires Real(t, Arrive(t, c, x, n, e).log, |c.log|)
    ensures LandsTo(t, k, x, e, Arrive(t, c, x, n, e).cur)
    decreases |c.script|, 2, 0
  {
    hide EnterCall, Descend, EnterParents, Closed, EntersTo, Chain;
    var path := ProperChain(t, x)[n..];
    Settling.PathQuiet(t, x, n);
    SilentErrors.SilentParents(t, c.(cur := x), path, e);
    ParentsGrow(t, c.(cur := x), path, e);
    var c1 := EnterParents(t, c.(cur := x), path, e);
    var c2 := EnterCall(t, c1, x, e);
    var c3 := c2.Log(Report(c2.cur));
    var r := Arrive(t, c, x, n, e);
    EnterGrows(t, c1, x, e);
    DescendGrows(t, c3, e);
    assert c2.log <= c3.log <= r.log;
    RealPart(t, c2.log, r.log, |c.log|, |c1.log|);
    EnterIn(t, k, c1, x, e);
    if c2.cur == x {
      RealPart(t, r.log, r.log, |c.log|, |c3.log|);
      DescendIn(t, k, c3, e);
    }
  }

  lemma {:induction false} DispatchIn(t: Table, k: set<Way>, c: Config, e: Event)
    requires QuietParents(t) && Closed(t, k) && InTable(t, c.cur) && Dispatchable(t, c.cur, e)
    requires Real(t, Dispatch(t, c, e).log, |c.log|)
    ensures Way(c.cur, e, Dispatch(t, c, e).cur) in k
    decreases |c.script|, 3, 0
  {
    hide Arrive, LeaveDown, Target, LandsTo, Closed, Chain;
    var r := Dispatch(t, c, e);
    if Target(t, c.cur, e).Some? {
      var x := Target(t, c.cur, e).value;
      var (c1, ok) := LeaveCall(t, c, c.cur);
      if ok || e == StateError {
        TransitionIn(t, k, c, c1, x, e);
        LeaveGiven(t, c, r);
      } else {
        var c2 := Dispatch(t, c1, StateError);
        DispatchGrows(t, c1, StateError);
        if c2.cur == c.cur { TransitionIn(t, k, c, c2, x, e); }
        RealPart(t, c2.log, r.log, |c.log|, |c1.log|);
        DispatchIn(t, k, c1, StateError);
      }
    }
    assert LeadsTo(t, k, c.cur, e, r.cur);
    assert Way(c.cur, e, r.cur) in k by { ClosedAt(t, k, c.cur, e, r.cur); }
  }

  lemma ClosedAt(t: Table, k: set<Way>, s: State, e: Event, y: State)
    requires Forest(t) && Closed(t, k) && InTable(t, s) && Dispatchable(t, s, e) && LeadsTo(t, k, s, e, y)
    ensures Way(s, e, y) in k
  {
  }

  lemma LeaveGiven(t: Table, c: Config, r: Config)
    requires InTable(t, c.cur) && LeaveCall(t, c, c.cur).0.log <= r.log && Real(t, r.log, |c.log|)
    ensures LeaveCall(t, c, c.cur).1 ==> t.states[c.cur].leave != {Fail}
  {
    assert Given(t, r.log[|c.log|]);
  }

  /** What follows after the current state has been left. */
  lemma TransitionIn(t: Table, k: set<Way>, c: Config, c1: Config, x: State, e: Event)
    requires QuietParents(t) && Closed(t, k) && InTable(t, c.cur) && c1.cur == c.cur && |c1.script| <= |c.script|
    requires Dispatchable(t, c.cur, e) && Target(t, c.cur, e) == Some(x) && |c.log| <= |c1.log|
    requires var n := Shared(t, c.cur, x);
             Real(t, Arrive(t, LeaveDown(t, c1, ProperChain(t, c.cur), n), x, n, e).log, |c.log|)
    ensures var n := Shared(t, c.cur, x);
            var r := Arrive(t, LeaveDown(t, c1, ProperChain(t, c.cur), n), x, n, e);
            LandsTo(t, k, x, e, r.cur) && c1.log <= r.log
    decreases |c.script|, 2, 1
  {
    hide Arrive, LeaveDown, Target, LandsTo, Closed, Chain;
    var n := Shared(t, c.cur, x);
    var c3 := LeaveDown(t, c1, ProperChain(t, c.cur), n);
    var r := Arrive(t, c3, x, n, e);
    LeaveDownGrows(t, c1, ProperChain(t, c.cur), n);
    ArriveGrows(t, c3, x, n, e);
    assert ParentsQuiet(t, c.cur, e);
    RealPart(t, r.log, r.log, |c.log|, |c3.log|);
    ArriveIn(t, k, c3, x, n, e);
  }
}
