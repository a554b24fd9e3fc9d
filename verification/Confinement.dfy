/** A simple way to be settled. */
module Confinement {
  import opened StateTable
  import opened Dispatcher
  import Settling
  import SilentErrors
  import Soundness

  // A simple condition on the table under which the handling of a failed leave cannot come back, whatever is
  // answered, also where it raises further events: some set of states holds all that it can lead to, but not the
  // state that was to be left.

  /** `s` and everything entered after it along first children lie in `k`. */
  ghost predicate LandsIn(t: Table, k: set<State>, s: State)
    requires Forest(t) && InTable(t, s)
    decreases |t.states| - t.level[s]
  {
    assert Linked(t, s);
    && s in k
    && match t.states[s].firstChild
       case None => true
       case Some(child) => LandsIn(t, k, child)
  }

  /** The events that a callback of `s` can cause, its leave callback included. */
  predicate Triggers(t: Table, s: State, e: Event)
    requires InTable(t, s)
  {
    Settling.Causes(t, s, e) || (e == StateError && Fail in t.states[s].leave)
  }

  /** Whatever the callbacks of states in `k` cause leads into `k`. */
  ghost predicate Confined(t: Table, k: set<State>)
    requires Forest(t)
  {
    forall s: State, e: Event ::
      s in k && InTable(t, s) && Triggers(t, s, e) && Target(t, s, e).Some? ==> LandsIn(t, k, Target(t, s, e).value)
  }

  lemma {:induction false} EnterStays(t: Table, k: set<State>, c: Config, x: State, e: Event)
    requires QuietParents(t) && Confined(t, k) && InTable(t, x) && c.cur == x && x in k
    ensures EnterCall(t, c, x, e).cur in k
    decreases |c.script|, 0, 0
  {
    var (a, rest) := NextAnswer(t.states[x].enter, c.script);
    match Consequence(a, e)
    case None =>
    case Some(ev) =>
      assert Triggers(t, x, ev) && Dispatchable(t, x, ev);
      DispatchStays(t, k, Config(x, c.log + [Enter(x, a)], rest), ev);
  }

  lemma {:induction false} DescendStays(t: Table, k: set<State>, c: Config, e: Event)
    requires QuietParents(t) && Confined(t, k) && InTable(t, c.cur) && LandsIn(t, k, c.cur)
    ensures Descend(t, c, e).cur in k
    decreases |c.script|, 1, |t.states| - t.level[c.cur]
  {
    hide EnterCall, Confined;
    assert Linked(t, c.cur);
    match t.states[c.cur].firstChild
    case None =>
    case Some(child) =>
      var c1 := Config(child, c.log + [Report(child)], c.script);
      EnterStays(t, k, c1, child, e);
      if EnterCall(t, c1, child, e).cur == child {
        DescendStays(t, k, EnterCall(t, c1, child, e), e);
      }
  }

  lemma {:induction false} ArriveStays(t: Table, k: set<State>, c: Config, x: State, n: nat, e: Event)
    requires QuietParents(t) && Confined(t, k) && InTable(t, x) && n <= t.level[x] && LandsIn(t, k, x)
    requires forall i | n <= i < t.level[x] :: Quiet(t, Chain(t, x)[i])
    ensures Arrive(t, c, x, n, e).cur in k
    decreases |c.script|, 2, 0
  {
    hide EnterCall, Descend, EnterParents, Confined;
    var path := ProperChain(t, x)[n..];
    Settling.PathQuiet(t, x, n);
    SilentErrors.SilentParents(t, c.(cur := x), path, e);
    var c1 := EnterParents(t, c.(cur := x), path, e);
    EnterStays(t, k, c1, x, e);
    var c2 := EnterCall(t, c1, x, e);
    if c2.cur == x {
      DescendStays(t, k, c2.Log(Report(x)), e);
    }
  }

  /** An event that leads into the set ends in it, from inside; error handling also from outside. */
  lemma {:induction false} DispatchStays(t: Table, k: set<State>, c: Config, e: Event)
    requires QuietParents(t) && Confined(t, k) && InTable(t, c.cur) && Dispatchable(t, c.cur, e)
    requires c.cur in k || (e == StateError && Target(t, c.cur, e).Some?)
    requires Target(t, c.cur, e).Some? ==> LandsIn(t, k, Target(t, c.cur, e).value)
    ensures Dispatch(t, c, e).cur in k
    decreases |c.script|, 3, 0
  {
    hide Arrive, LeaveDown, Target, LandsIn;
    if Target(t, c.cur, e).Some? {
      var x := Target(t, c.cur, e).value;
      var (c1, ok) := LeaveCall(t, c, c.cur);
      if !ok && e != StateError {
        assert Triggers(t, c.cur, StateError);
        DispatchStays(t, k, c1, StateError);
      }
      var c2 := if ok || e == StateError then c1 else Dispatch(t, c1, StateError);
      if c2.cur == c.cur {
        var n := Shared(t, c.cur, x);
        assert ParentsQuiet(t, c.cur, e);
        ArriveStays(t, k, LeaveDown(t, c2, ProperChain(t, c.cur), n), x, n, e);
      }
    }
  }

  /** The error handling of a state outside a confined set that it leads into does not come back. */
  lemma ConfinedSettles(t: Table, k: set<State>, s: State)
    requires QuietParents(t) && Confined(t, k) && InTable(t, s) && Soundness.MayFail(t, s)
    requires s !in k && LandsIn(t, k, Target(t, s, StateError).value)
    ensures forall c: Config | c.cur == s :: !Soundness.Returns(t, c)
  {
    hide Dispatch, Confined, Target, LandsIn;
    forall c: Config | c.cur == s ensures !Soundness.Returns(t, c) {
      DispatchStays(t, k, c, StateError);
    }
  }
}
