/** Termination and rest. */
module Settling {
  import opened Wrappers
  import opened StateTable
  import opened Dispatcher
  import SilentErrors

  // Termination and rest. The dispatcher calls itself from callbacks; a rank on states that drops along every such
  // call bounds the number of callbacks one event can run, for every sequence of answers.

  /** The events an enter callback of `s` can cause. */
  predicate Causes(t: Table, s: State, ev: Event)
    requires InTable(t, s)
  {
    Raise(ev) in t.states[s].enter || (ev == StateError && Fail in t.states[s].enter)
  }

  /** `s` and everything below it along first children have rank below `r`. */
  ghost predicate LandsBelow(t: Table, rank: seq<nat>, s: State, r: nat)
    requires Forest(t) && InTable(t, s) && |rank| == |t.states|
    decreases |t.states| - t.level[s]
  {
    assert Linked(t, s);
    && rank[s] < r
    && match t.states[s].firstChild
       case None => true
       case Some(k) => LandsBelow(t, rank, k, r)
  }

  ghost predicate RankDrops(t: Table, rank: seq<nat>, s: State, ev: Event)
    requires Forest(t) && InTable(t, s) && |rank| == |t.states|
  {
    Causes(t, s, ev) && Target(t, s, ev).Some? ==> LandsBelow(t, rank, Target(t, s, ev).value, rank[s])
  }

  /** The enter callback of `s` never just succeeds: whatever it does sends the machine elsewhere. */
  ghost predicate Restless(t: Table, s: State)
    requires Forest(t) && InTable(t, s)
  {
    && Fail in t.states[s].enter && Succeed !in t.states[s].enter
    && forall ev: Event {:trigger Causes(t, s, ev)} :: Causes(t, s, ev) ==> Target(t, s, ev).Some?
  }

  ghost predicate LandsCalmly(t: Table, s: State)
    requires Forest(t) && InTable(t, s)
    decreases |t.states| - t.level[s]
  {
    assert Linked(t, s);
    && !Restless(t, s)
    && match t.states[s].firstChild
       case None => true
       case Some(k) => LandsCalmly(t, k)
  }

  /** Error transitions, under which failures are ignored, do not end in a restless state. */
  ghost predicate ErrorsCalm(t: Table, s: State)
    requires Forest(t) && InTable(t, s)
  {
    Target(t, s, StateError).Some? ==> LandsCalmly(t, Target(t, s, StateError).value)
  }

  ghost predicate Ranked(t: Table, rank: seq<nat>)
    requires Forest(t)
  {
    && |rank| == |t.states|
    && (forall s: State, ev: Event {:trigger RankDrops(t, rank, s, ev)} :: InTable(t, s) ==> RankDrops(t, rank, s, ev))
    && (forall s: State {:trigger ErrorsCalm(t, s)} :: InTable(t, s) ==> ErrorsCalm(t, s))
  }

  /** The callbacks one event can run when the states it may land in have ranks below `r`; `h` bounds the levels. */
  function Budget(h: nat, r: nat): (n: nat)
    ensures r > 0 ==> n >= 2 * h + 1
  {
    if r == 0 then 0 else 2 * h + (if r == 1 then 1 else Budget(h, r - 1))
  }

  lemma {:induction false} BudgetGrows(h: nat, r: nat, q: nat)
    requires r <= q
    ensures Budget(h, r) <= Budget(h, q)
    decreases q
  {
    if r < q {
      BudgetGrows(h, r, q - 1);
    }
  }

  function Used(c: Config, r: Config): int { |c.script| - |r.script| }

  /** All answers used up, or in a state that may be rested in. */
  ghost predicate Calm(t: Table, r: Config)
    requires Forest(t)
  {
    InTable(t, r.cur) && (r.script == [] || !Restless(t, r.cur))
  }

  ghost predicate Levels(t: Table, h: nat)
    requires Forest(t)
  {
    forall s: State :: InTable(t, s) ==> t.level[s] < h
  }

  ghost predicate Setting(t: Table, rank: seq<nat>, h: nat) {
    WellFormed(t) && Ranked(t, rank) && Levels(t, h)
  }

  lemma {:induction false} LeaveDownUsed(t: Table, c: Config, chain: seq<State>, k: nat)
    requires k <= |chain| && forall s <- chain :: InTable(t, s)
    ensures Used(c, LeaveDown(t, c, chain, k)) <= |chain| - k
    decreases |chain|
  {
    if |chain| > k {
      LeaveDownUsed(t, LeaveCall(t, c, chain[|chain| - 1]).0, chain[..|chain| - 1], k);
    }
  }

  lemma {:induction false} ParentsUsed(t: Table, c: Config, path: seq<State>, e: Event)
    requires Forest(t) && InTable(t, c.cur) && forall s <- path :: InTable(t, s) && Quiet(t, s)
    ensures var r := EnterParents(t, c, path, e);
            r.cur == c.cur && Used(c, r) <= |path|
    decreases |path|
  {
    if path != [] {
      ParentsUsed(t, EnterCall(t, c.Log(Report(path[0])), path[0], e), path[1..], e);
    }
  }

  /** What one enter call can use: one answer, and a further event of smaller rank only if that ends in a leaf. */
  lemma {:induction false} EnterUsed(t: Table, rank: seq<nat>, h: nat, c: Config, x: State, e: Event)
    requires Setting(t, rank, h) && InTable(t, x) && c.cur == x
    ensures var r := EnterCall(t, c, x, e);
            || (r.cur == x && Used(c, r) <= 1 && (r.script == [] || !Restless(t, x) || e == StateError))
            || (Leaf(t, r.cur) && Calm(t, r) && Used(c, r) <= 1 + Budget(h, rank[x]))
    decreases |c.script|, 0, 0
  {
    var (a, rest) := NextAnswer(t.states[x].enter, c.script);
    var c' := Config(c.cur, c.log + [Enter(x, a)], rest);
    match Consequence(a, e)
    case None =>
      assert a == Fail || Restless(t, x) ==> c.script == [] || e == StateError;
    case Some(ev) =>
      assert Causes(t, x, ev) && RankDrops(t, rank, x, ev);
      if Target(t, x, ev).Some? {
        DispatchUsed(t, rank, h, c', ev, rank[x]);
      }
  }

  lemma {:induction false} DescendUsed(t: Table, rank: seq<nat>, h: nat, c: Config, e: Event, r: nat)
    requires r > 0 && Setting(t, rank, h) && InTable(t, c.cur) && LandsBelow(t, rank, c.cur, r)
    requires e == StateError ==> LandsCalmly(t, c.cur)
    requires c.script == [] || !Restless(t, c.cur)
    ensures var d := Descend(t, c, e);
            Leaf(t, d.cur) && Calm(t, d) && Used(c, d) <= h - t.level[c.cur] - 1 + Budget(h, r - 1)
    decreases |c.script|, 1, |t.states| - t.level[c.cur]
  {
    hide EnterCall, Budget, Restless, Target;
    assert Linked(t, c.cur);
    match t.states[c.cur].firstChild
    case None =>
      assert t.level[c.cur] < h;
    case Some(k) =>
      var c1 := Config(k, c.log + [Report(k)], c.script);
      EnterUsed(t, rank, h, c1, k, e);
      var c2 := EnterCall(t, c1, k, e);
      assert rank[k] < r by { assert LandsBelow(t, rank, k, r); }
      BudgetGrows(h, rank[k], r - 1);
      assert t.level[k] < h;
      if c2.cur == k && !(Leaf(t, c2.cur) && Calm(t, c2)) {
        DescendUsed(t, rank, h, c2, e, r);
      }
  }

  lemma {:induction false} ArriveUsed(t: Table, rank: seq<nat>, h: nat, c: Config, x: State, n: nat, e: Event, r: nat)
    requires r > 0 && Setting(t, rank, h) && InTable(t, x) && n <= t.level[x] && LandsBelow(t, rank, x, r)
    requires forall i | n <= i < t.level[x] :: Quiet(t, Chain(t, x)[i])
    requires e == StateError ==> LandsCalmly(t, x)
    ensures var d := Arrive(t, c, x, n, e);
            Leaf(t, d.cur) && Calm(t, d) && Used(c, d) <= h - n + Budget(h, r - 1)
    decreases |c.script|, 2, 0
  {
    var path := ProperChain(t, x)[n..];
    PathQuiet(t, x, n);
    ParentsUsed(t, c.(cur := x), path, e);
    var c1 := EnterParents(t, c.(cur := x), path, e);
    EnterUsed(t, rank, h, c1, x, e);
    var c2 := EnterCall(t, c1, x, e);
    var c3 := c2.Log(Report(c2.cur));
    assert t.level[x] < h;
    assert rank[x] < r by { assert LandsBelow(t, rank, x, r); }
    BudgetGrows(h, rank[x], r - 1);
    if c3.cur == x {
      if Leaf(t, x) {
        assert Calm(t, c3) by { if e == StateError { assert LandsCalmly(t, x); } }
      } else {
        assert Calm(t, c3) by { if e == StateError { assert LandsCalmly(t, x); } }
        DescendUsed(t, rank, h, c3, e, r);
      }
    }
  }

  lemma {:induction false} SilentDescendUsed(t: Table, h: nat, c: Config)
    requires Forest(t) && Levels(t, h) && InTable(t, c.cur) && LandsSilently(t, c.cur) && LandsCalmly(t, c.cur)
    ensures Used(c, Descend(t, c, StateError)) <= h - t.level[c.cur] - 1 && !Restless(t, Landing(t, c.cur))
    decreases |t.states| - t.level[c.cur]
  {
    assert Linked(t, c.cur);
    assert t.level[c.cur] < h;
    match t.states[c.cur].firstChild
    case None =>
    case Some(k) =>
      SilentDescendUsed(t, h, EnterCall(t, Config(k, c.log + [Report(k)], c.script), k, StateError));
  }

  lemma SilentArriveUsed(t: Table, h: nat, c: Config, x: State, n: nat)
    requires Forest(t) && Levels(t, h) && InTable(t, x) && LandsSilently(t, x) && LandsCalmly(t, x)
    requires n <= t.level[x] && forall i | n <= i < t.level[x] :: Quiet(t, Chain(t, x)[i])
    ensures Used(c, Arrive(t, c, x, n, StateError)) <= h - n && !Restless(t, Landing(t, x))
  {
    var path := ProperChain(t, x)[n..];
    PathQuiet(t, x, n);
    ParentsUsed(t, c.(cur := x), path, StateError);
    var c2 := EnterParents(t, c.(cur := x), path, StateError);
    SilentDescendUsed(t, h, EnterCall(t, c2, x, StateError).Log(Report(x)));
  }

  /** The error handling of a failed leave: no further event, at most one callback per state left or entered. */
  lemma SilentUsed(t: Table, h: nat, c: Config)
    requires WellFormed(t) && Levels(t, h) && InTable(t, c.cur) && ErrorsCalm(t, c.cur)
    requires Fail in t.states[c.cur].leave && Target(t, c.cur, StateError).Some?
    ensures Used(c, Dispatch(t, c, StateError)) <= 2 * h
    ensures !Restless(t, Landing(t, Target(t, c.cur, StateError).value))
  {
    var x := Target(t, c.cur, StateError).value;
    var n := Shared(t, c.cur, x);
    assert ErrorSettles(t, c.cur) && ParentsQuiet(t, c.cur, StateError);
    assert t.level[c.cur] < h;
    var c0 := LeaveCall(t, c, c.cur).0;
    LeaveDownUsed(t, c0, ProperChain(t, c.cur), n);
    SilentArriveUsed(t, h, LeaveDown(t, c0, ProperChain(t, c.cur), n), x, n);
  }

  lemma PathQuiet(t: Table, x: State, n: nat)
    requires Forest(t) && InTable(t, x) && n <= t.level[x]
    requires forall i | n <= i < t.level[x] :: Quiet(t, Chain(t, x)[i])
    ensures forall s <- ProperChain(t, x)[n..] :: InTable(t, s) && Quiet(t, s)
  {
    var path := ProperChain(t, x)[n..];
    forall s | s in path ensures InTable(t, s) && Quiet(t, s) {
      var i :| 0 <= i < |path| && path[i] == s;
      assert s == Chain(t, x)[n + i];
    }
  }

  /** The error handling of a failed leave, seen from the dispatcher that started it. */
  lemma FailedLeaveUsed(t: Table, h: nat, c: Config)
    requires WellFormed(t) && Levels(t, h) && InTable(t, c.cur) && ErrorsCalm(t, c.cur)
    requires Fail in t.states[c.cur].leave && Target(t, c.cur, StateError).Some?
    ensures var d := Dispatch(t, c, StateError);
            d.cur != c.cur && Leaf(t, d.cur) && Calm(t, d) && Used(c, d) <= 2 * h
  {
    assert ErrorSettles(t, c.cur);
    SilentUsed(t, h, c);
    SilentErrors.ErrorLands(t, c);
  }

  /** The part of a transition after the current state's own leave call. */
  lemma TransitionUsed(t: Table, rank: seq<nat>, h: nat, c: Config, x: State, e: Event, r: nat)
    requires Setting(t, rank, h) && InTable(t, c.cur) && Dispatchable(t, c.cur, e)
    requires Target(t, c.cur, e) == Some(x) && LandsBelow(t, rank, x, r)
    ensures var n := Shared(t, c.cur, x);
            var d := Arrive(t, LeaveDown(t, c, ProperChain(t, c.cur), n), x, n, e);
            r > 0 && Leaf(t, d.cur) && Calm(t, d) && Used(c, d) <= Budget(h, r) - 1
    decreases |c.script|, 2, 1
  {
    hide Arrive, LeaveDown, Target, Restless, LandsCalmly, LandsBelow, Chain, Leaf, Calm, Setting, Budget;
    SettingHere(t, rank, h, c.cur, e, r);
    BudgetStep(h, r);
    var n := Shared(t, c.cur, x);
    LeaveDownUsed(t, c, ProperChain(t, c.cur), n);
    ArriveUsed(t, rank, h, LeaveDown(t, c, ProperChain(t, c.cur), n), x, n, e, r);
  }

  lemma SettingHere(t: Table, rank: seq<nat>, h: nat, s: State, e: Event, r: nat)
    requires Setting(t, rank, h) && InTable(t, s) && Dispatchable(t, s, e) && Target(t, s, e).Some?
    requires LandsBelow(t, rank, Target(t, s, e).value, r)
    ensures Forest(t) && t.level[s] < h && ErrorsCalm(t, s) && ParentsQuiet(t, s, e) && r > 0
  {
  }

  lemma BudgetStep(h: nat, r: nat)
    requires r > 0
    ensures Budget(h, r) - 1 >= 2 * h + Budget(h, r - 1) - (if r == 1 then 0 else 1)
    ensures r == 1 ==> Budget(h, 1) == 2 * h + 1
  {
  }

  /** An event with a transition ends in a leaf that may be rested in, within the budget of its rank. */
  lemma {:induction false} DispatchUsed(t: Table, rank: seq<nat>, h: nat, c: Config, e: Event, r: nat)
    requires Setting(t, rank, h) && InTable(t, c.cur) && Dispatchable(t, c.cur, e)
    requires Target(t, c.cur, e).Some? && LandsBelow(t, rank, Target(t, c.cur, e).value, r)
    ensures var d := Dispatch(t, c, e);
            r > 0 && Leaf(t, d.cur) && Calm(t, d) && Used(c, d) <= Budget(h, r)
    decreases |c.script|, 3, 0
  {
    var x := Target(t, c.cur, e).value;
    var (c1, ok) := LeaveCall(t, c, c.cur);
    if !ok && e != StateError && Target(t, c.cur, StateError).Some? {
      assert ErrorsCalm(t, c.cur);
      FailedLeaveUsed(t, h, c1);
    } else {
      TransitionUsed(t, rank, h, c1, x, e, r);
    }
  }
}
