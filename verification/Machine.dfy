/** The state machine as the viewer runs it: mutable current state, pointer-walking loops, recursive handler. */
module StateMachine {
  import opened Wrappers
  import opened StateTable
  import opened Dispatcher

  class Machine {
    const table: Table
    var curstate: State
    /** The calls made and reports sent so far, and the answers the callbacks have yet to give. */
    var log: seq<Action>
    var script: seq<Answer>

    ghost predicate Valid()
      reads this
    {
      Forest(table) && InTable(table, curstate)
    }

    ghost function Now(): Config
      reads this
    {
      Config(curstate, log, script)
    }

    constructor (table: Table, initial: State, script: seq<Answer>)
      requires Forest(table) && InTable(table, initial)
      ensures Valid() && this.table == table && Now() == Config(initial, [], script)
    {
      this.table, this.curstate, this.log, this.script := table, initial, [], script;
    }

    method Enter(s: State, e: Event)
      requires Valid() && InTable(table, s)
      modifies this
      ensures Valid() && Now() == EnterCall(table, old(Now()), s, e)
      decreases |script|, 0, 0
    {
      var (a, rest) := NextAnswer(table.states[s].enter, script);
      log, script := log + [Action.Enter(s, a)], rest;
      var next := Consequence(a, e);
      if next.Some? {
        Handle(next.value);
      }
    }

    method Leave(s: State) returns (ok: bool)
      requires Valid() && InTable(table, s)
      modifies this
      ensures Valid() && (Now(), ok) == LeaveCall(table, old(Now()), s)
    {
      var (a, rest) := NextAnswer(table.states[s].leave, script);
      ok := a != Fail;
      log, script := log + [Action.Leave(s, ok)], rest;
    }

    method ReportState(s: State)
      requires Valid()
      modifies this
      ensures Valid() && Now() == old(Now()).Log(Report(s))
    {
      log := log + [Report(s)];
    }

    /** Enters the states from below `end` down to `start`, outermost first. */
    method ParentEnter(start: Option<State>, end: Option<State>, e: Event, ghost chain: seq<State>, ghost shared: nat)
      requires Valid() && shared <= |chain|
      requires forall s <- chain :: InTable(table, s)
      requires start == LastOf(chain) && end == LastOf(chain[..shared]) && Upward(table, chain)
      modifies this
      ensures Valid() && Now() == EnterParents(table, old(Now()), chain[shared..], e)
      decreases |script|, 1, |chain|
    {
      hide EnterCall, EnterParents, Upward;
      if start == end {
        LastOfInjective(table, chain, shared);
        EnterNobody(table, Now(), e);
        return;
      }
      if start.Some? {
        var s := start.value;
        ghost var above := chain[..|chain| - 1];
        ghost var before := Now();
        UpwardStep(table, chain, shared);
        ParentEnter(table.states[s].parent, end, e, above, shared);
        ReportState(s);
        Enter(s, e);
        EnterParentsLast(table, before, above[shared..], s, e);
      }
    }

    /** The state the event leads to, found by walking up from the current state. */
    method FindTarget(e: Event) returns (target: Option<State>)
      requires Valid()
      ensures target == Target(table, curstate, e)
    {
      var this_: Option<State> := Some(curstate);
      while this_.Some? && e !in table.states[this_.value].out
        invariant this_.Some? ==> InTable(table, this_.value)
        invariant Target(table, curstate, e) == if this_.Some? then Target(table, this_.value, e) else None
        decreases if this_.Some? then 1 + table.level[this_.value] else 0
      {
        assert Linked(table, this_.value);
        this_ := table.states[this_.value].parent;
      }
      if this_.None? {
        return None;
      }
      return Some(table.states[this_.value].out[e]);
    }

    /** The deepest state that is a proper ancestor of both, found by comparing every pair of ancestors. */
    method CommonAncestor(target: State) returns (cmnanc: Option<State>)
      requires Valid() && InTable(table, target)
      ensures cmnanc == LastOf(ProperChain(table, curstate)[..Shared(table, curstate, target)])
    {
      hide Shared, Common, Target, Chain, Upward;
      ghost var mine, theirs := ProperChain(table, curstate), ProperChain(table, target);
      ghost var i: nat := |mine|;
      UpwardChain(table, curstate);
      UpwardChain(table, target);
      var thistree := table.states[curstate].parent;
      while thistree.Some?
        invariant i <= |mine| && thistree == LastOf(mine[..i])
        invariant forall k, l | i <= k < |mine| && 0 <= l < |theirs| :: mine[k] != theirs[l]
        decreases i
      {
        ghost var j: nat := |theirs|;
        var targettree := table.states[target].parent;
        while targettree.Some?
          invariant j <= |theirs| && targettree == LastOf(theirs[..j])
          invariant forall l | j <= l < |theirs| :: thistree.value != theirs[l]
          decreases j
        {
          if thistree == targettree {
            assert mine[i - 1] == theirs[j - 1] == thistree.value;
            SharedIs(table, curstate, target, i);
            return thistree;
          }
          targettree := table.states[targettree.value].parent;
          j := j - 1;
        }
        thistree := table.states[thistree.value].parent;
        i := i - 1;
      }
      SharedIs(table, curstate, target, 0);
      return None;
    }

    /** One event, handled to completion on the state machine's thread. */
    method Handle(e: Event)
      requires Valid()
      modifies this
      ensures Valid() && Now() == Dispatch(table, old(Now()), e)
      decreases |script|, 3, 0
    {
      var hold := curstate;
      var found := FindTarget(e);
      if found.None? {
        return;
      }
      var target := found.value;
      var ok := Leave(curstate);
      if !ok && e != StateError {
        Handle(StateError);
      }
      if hold != curstate {
        return;
      }
      Move(target, e);
    }

    /** The transition proper, once the current state's own leave callback has run. */
    method Move(target: State, e: Event)
      requires Valid() && InTable(table, target)
      modifies this
      ensures Valid()
      ensures var shared := Shared(table, old(curstate), target);
              Now() == Arrive(table, LeaveDown(table, old(Now()), ProperChain(table, old(curstate)), shared),
                              target, shared, e)
      decreases |script|, 2, 1
    {
      hide LeaveDown, EnterParents, Descend, EnterCall, Shared;
      var cmnanc := CommonAncestor(target);
      ghost var shared := Shared(table, curstate, target);
      LeaveAncestors(cmnanc, shared);
      curstate := target;
      UpwardChain(table, target);
      ParentEnter(table.states[curstate].parent, cmnanc, e, ProperChain(table, target), shared);
      Enter(curstate, e);
      ReportState(curstate);
      if curstate != target {
        return;
      }
      DescendChildren(e);
    }

    /** Calls the leave callbacks of the ancestors below `cmnanc`, innermost first. */
    method LeaveAncestors(cmnanc: Option<State>, ghost shared: nat)
      requires Valid() && shared <= table.level[curstate]
      requires cmnanc == LastOf(ProperChain(table, curstate)[..shared])
      modifies this
      ensures Valid() && Now() == LeaveDown(table, old(Now()), ProperChain(table, curstate), shared)
      ensures curstate == old(curstate) && |script| <= |old(script)|
    {
      hide Upward, LeaveDown, Chain;
      ghost var chain := ProperChain(table, curstate);
      ghost var i: nat := |chain|;
      UpwardChain(table, curstate);
      assert chain[..i] == chain;
      var thistree := table.states[curstate].parent;
      while thistree != cmnanc
        invariant Valid() && curstate == old(curstate) && |script| <= |old(script)|
        invariant shared <= i <= |chain| && thistree == LastOf(chain[..i])
        invariant LeaveDown(table, old(Now()), chain, shared) == LeaveDown(table, Now(), chain[..i], shared)
        decreases i
      {
        LeaveDownStep(table, Now(), chain, i, shared);
        var _ := Leave(thistree.value);
        thistree := table.states[thistree.value].parent;
        i := i - 1;
      }
      LeaveDownNone(table, Now(), chain[..i], shared);
    }

    /** Moves into first children for as long as there are any and no callback has changed the state. */
    method DescendChildren(e: Event)
      requires Valid()
      modifies this
      ensures Valid() && Now() == Descend(table, old(Now()), e)
      decreases |script|, 1, |table.states| - table.level[curstate]
    {
      while table.states[curstate].firstChild.Some?
        invariant Valid() && |script| <= |old(script)|
        invariant Descend(table, old(Now()), e) == Descend(table, Now(), e)
        decreases |script|, |table.states| - table.level[curstate]
      {
        assert Linked(table, curstate);
        var hold := table.states[curstate].firstChild.value;
        curstate := hold;
        ReportState(curstate);
        Enter(curstate, e);
        if hold != curstate {
          return;
        }
      }
    }
  }

  ghost function LastOf(chain: seq<State>): Option<State> {
    if chain == [] then None else Some(chain[|chain| - 1])
  }

  /** Each state is the parent of the next one, and the first has none. */
  ghost predicate Upward(t: Table, chain: seq<State>)
    requires |t.level| == |t.states|
  {
    && (forall i | 0 <= i < |chain| :: InTable(t, chain[i]) && t.level[chain[i]] == i)
    && (chain != [] ==> t.states[chain[0]].parent == None)
    && (forall i, j | 0 <= i && j == i + 1 < |chain| :: t.states[chain[j]].parent == Some(chain[i]))
  }

  lemma LastOfInjective(t: Table, chain: seq<State>, k: nat)
    requires |t.level| == |t.states| && Upward(t, chain) && k <= |chain| && LastOf(chain) == LastOf(chain[..k])
    ensures k == |chain|
  {
    assert |chain| > 0 ==> t.level[chain[|chain| - 1]] == |chain| - 1;
    assert k > 0 ==> t.level[chain[k - 1]] == k - 1;
  }

  lemma LeaveDownNone(t: Table, c: Config, chain: seq<State>, k: nat)
    requires |chain| <= k && forall s <- chain :: InTable(t, s)
    ensures LeaveDown(t, c, chain, k) == c
  {
  }

  lemma LeaveDownStep(t: Table, c: Config, chain: seq<State>, i: nat, k: nat)
    requires forall s <- chain :: InTable(t, s)
    requires k < i <= |chain|
    ensures LeaveDown(t, c, chain[..i], k) == LeaveDown(t, LeaveCall(t, c, chain[i - 1]).0, chain[..i - 1], k)
  {
    assert chain[..i][..i - 1] == chain[..i - 1];
  }

  lemma UpwardStep(t: Table, chain: seq<State>, k: nat)
    requires |t.level| == |t.states| && Upward(t, chain) && k <= |chain| && LastOf(chain) != LastOf(chain[..k])
    ensures k < |chain|
    ensures var above, s := chain[..|chain| - 1], chain[|chain| - 1];
            && Upward(t, above) && InTable(t, s) && t.states[s].parent == LastOf(above) && above[..k] == chain[..k]
            && chain[k..] == above[k..] + [s]
  {
    hide Chain;
    assert chain[..|chain|] == chain;
  }

  lemma EnterNobody(t: Table, c: Config, e: Event)
    requires Forest(t) && InTable(t, c.cur)
    ensures EnterParents(t, c, [], e) == c
  {
  }

  lemma {:induction false} EnterParentsLast(t: Table, c: Config, path: seq<State>, s: State, e: Event)
    requires Forest(t) && InTable(t, c.cur) && InTable(t, s) && forall x <- path :: InTable(t, x)
    ensures EnterParents(t, c, path + [s], e)
         == EnterCall(t, EnterParents(t, c, path, e).Log(Report(s)), s, e)
    decreases |path|
  {
    if path == [] {
      assert path + [s] == [s];
    } else {
      EnterParentsLast(t, EnterCall(t, c.Log(Report(path[0])), path[0], e), path[1..], s, e);
      assert (path + [s])[1..] == path[1..] + [s];
    }
  }

  lemma UpwardChain(t: Table, s: State)
    requires Forest(t) && InTable(t, s)
    ensures Upward(t, ProperChain(t, s)) && t.states[s].parent == LastOf(ProperChain(t, s))
  {
    var chain := ProperChain(t, s);
    assert Linked(t, s);
    assert forall i | 0 <= i < |chain| :: chain[i] == Chain(t, s)[i];
  }

  /** A common ancestor with no common ancestor below it determines the shared part of two chains. */
  lemma SharedIs(t: Table, s: State, x: State, n: nat)
    requires Forest(t) && InTable(t, s) && InTable(t, x) && n <= t.level[s]
    requires n > 0 ==> ProperChain(t, s)[n - 1] in ProperChain(t, x)
    requires forall k, l | n <= k < t.level[s] && 0 <= l < t.level[x] :: ProperChain(t, s)[k] != ProperChain(t, x)[l]
    ensures Shared(t, s, x) == n
  {
    var mine, theirs := ProperChain(t, s), ProperChain(t, x);
    if n > 0 {
      SamePrefix(t, s, x, n);
    }
    CommonIs(mine, theirs, n);
  }

  /** Two chains that have a state in common agree up to it. */
  lemma SamePrefix(t: Table, s: State, x: State, n: nat)
    requires Forest(t) && InTable(t, s) && InTable(t, x) && 0 < n <= t.level[s]
    requires ProperChain(t, s)[n - 1] in ProperChain(t, x)
    ensures n <= t.level[x] && ProperChain(t, s)[..n] == ProperChain(t, x)[..n]
  {
    hide Shared, Common, Chain;
    var mine, theirs := ProperChain(t, s), ProperChain(t, x);
    var l :| 0 <= l < |theirs| && theirs[l] == mine[n - 1];
    assert Chain(t, s)[n - 1] == mine[n - 1] == Chain(t, x)[l];
    assert l == n - 1;
    ChainPrefix(t, s, n - 1);
    ChainPrefix(t, x, n - 1);
    assert mine[..n] == Chain(t, s)[..n] && theirs[..n] == Chain(t, x)[..n];
  }

  lemma {:induction false} CommonIs(a: seq<State>, b: seq<State>, n: nat)
    requires n <= |a| && n <= |b| && a[..n] == b[..n]
    requires forall k, l | n <= k < |a| && 0 <= l < |b| :: a[k] != b[l]
    ensures Common(a, b) == n
    decreases n
  {
    if n > 0 {
      assert a[..n][0] == b[..n][0];
      assert a[1..][..n - 1] == a[..n][1..] && b[1..][..n - 1] == b[..n][1..];
      CommonIs(a[1..], b[1..], n - 1);
    }
  }
}
