/** Error transitions that raise nothing: where they end, whatever the callbacks answer. */
module SilentErrors {
  import opened StateTable
  import opened Dispatcher

  /** A silent descent ends in the landing state. */
  lemma {:induction false} SilentDescend(t: Table, c: Config)
    requires Forest(t) && InTable(t, c.cur) && LandsSilently(t, c.cur)
    ensures Descend(t, c, StateError).cur == Landing(t, c.cur)
    decreases |t.states| - t.level[c.cur]
  {
    assert Linked(t, c.cur);
    match t.states[c.cur].firstChild
    case None =>
    case Some(k) =>
      SilentDescend(t, EnterCall(t, Config(k, c.log + [Report(k)], c.script), k, StateError));
  }

  lemma {:induction false} SilentParents(t: Table, c: Config, path: seq<State>, e: Event)
    requires Forest(t) && InTable(t, c.cur) && forall s <- path :: InTable(t, s) && Quiet(t, s)
    ensures EnterParents(t, c, path, e).cur == c.cur
    ensures |EnterParents(t, c, path, e).script| <= |c.script|
    decreases |path|
  {
    if path != [] {
      SilentParents(t, EnterCall(t, c.Log(Report(path[0])), path[0], e), path[1..], e);
    }
  }

  lemma SilentEnter(t: Table, c: Config, x: State)
    requires Forest(t) && InTable(t, c.cur) && InTable(t, x) && RaisesNothing(t, x)
    ensures EnterCall(t, c, x, StateError).cur == c.cur
  {
  }

  lemma SilentArrive(t: Table, c: Config, x: State, n: nat)
    requires Forest(t) && InTable(t, x) && n <= t.level[x] && LandsSilently(t, x)
    requires forall i | n <= i < t.level[x] :: Quiet(t, Chain(t, x)[i])
    ensures Arrive(t, c, x, n, StateError).cur == Landing(t, x)
  {
    hide Landing, Target, EnterCall, EnterParents, Chain, Descend;
    var path := ProperChain(t, x)[n..];
    assert forall s <- path :: Quiet(t, s) by {
      assert forall i | 0 <= i < |path| :: path[i] == Chain(t, x)[n + i];
    }
    SilentParents(t, c.(cur := x), path, StateError);
    var c2 := EnterParents(t, c.(cur := x), path, StateError);
    assert RaisesNothing(t, x);
    SilentEnter(t, c2, x);
    SilentDescend(t, EnterCall(t, c2, x, StateError).Log(Report(x)));
  }

  /** The error transition of a state whose errors settle ends in the landing state of its target. */
  lemma ErrorLands(t: Table, c: Config)
    requires QuietParents(t) && InTable(t, c.cur) && Dispatchable(t, c.cur, StateError)
    requires Target(t, c.cur, StateError).Some? && LandsSilently(t, Target(t, c.cur, StateError).value)
    ensures Dispatch(t, c, StateError).cur == Landing(t, Target(t, c.cur, StateError).value)
  {
    hide Arrive, LeaveDown, Landing, LandsSilently, Target;
    var x := Target(t, c.cur, StateError).value;
    var n := Shared(t, c.cur, x);
    assert ParentsQuiet(t, c.cur, StateError);
    SilentArrive(t, LeaveDown(t, LeaveCall(t, c, c.cur).0, ProperChain(t, c.cur), n), x, n);
  }
}
