/** One event, handled to completion. */
module Dispatcher {
  import opened Wrappers
  import opened StateTable

  // The event dispatcher of the viewer's state machine as a function of the current state and of the answers its
  // callbacks will give. Every callback takes the next answer of `script`; a callback that runs after the script
  // is used up succeeds, so a script describes a run up to any chosen point. A log is `Real` as far as every
  // answer in it is one that the callback can give.

  /** What the outside can observe: states entered and left through their callbacks, and reports to the UI. */
  datatype Action = Enter(s: State, a: Answer) | Leave(s: State, ok: bool) | Report(s: State)

  datatype Config = Config(cur: State, log: seq<Action>, script: seq<Answer>) {
    function Log(a: Action): Config { this.(log := log + [a]) }
  }

  /** An answer outside what the callback can give reads as a failure if it can fail, else as success. */
  function Admit(allowed: set<Answer>, a: Answer): (r: Answer)
    ensures a in allowed ==> r == a
    ensures allowed != {} && allowed <= {Succeed, Fail} ==> r in allowed
  {
    if a in allowed then a else if Fail in allowed then Fail else Succeed
  }

  /** The answer of a callback, and the script after it. */
  function NextAnswer(allowed: set<Answer>, script: seq<Answer>): (r: (Answer, seq<Answer>))
    ensures |r.1| <= |script|
    ensures r.0 != Succeed ==> |r.1| < |script| && r.0 in allowed
    ensures allowed <= {Succeed} ==> r.0 == Succeed
  {
    if allowed == {} || script == [] then (Succeed, script)
    else (Admit(allowed, script[0]), script[1..])
  }

  /** The callback can do what the log says; a state without the callback is entered and left without failure. */
  predicate Given(t: Table, a: Action) {
    match a
    case Report(_) => true
    case Enter(s, ans) => InTable(t, s) && (ans in t.states[s].enter || (t.states[s].enter == {} && ans == Succeed))
    case Leave(s, ok) => InTable(t, s) && if ok then t.states[s].leave != {Fail} else Fail in t.states[s].leave
  }

  /** From index `k` on, all callbacks did what they can do: the log of a run of the program. */
  ghost predicate Real(t: Table, log: seq<Action>, k: nat) { forall i | k <= i < |log| :: Given(t, log[i]) }

  function LeaveCall(t: Table, c: Config, s: State): (r: (Config, bool))
    requires InTable(t, s)
    ensures r.0.cur == c.cur && r.0.log == c.log + [Leave(s, r.1)] && |r.0.script| <= |c.script|
    ensures !r.1 ==> |r.0.script| < |c.script| && Fail in t.states[s].leave
  {
    var (a, rest) := NextAnswer(t.states[s].leave, c.script);
    (Config(c.cur, c.log + [Leave(s, a != Fail)], rest), a != Fail)
  }

  /** Leaves the states of `chain` from its end down to index `k`; failures are not looked at. */
  function LeaveDown(t: Table, c: Config, chain: seq<State>, k: nat): (r: Config)
    requires forall s <- chain :: InTable(t, s)
    ensures r.cur == c.cur && |r.script| <= |c.script|
    decreases |chain|
  {
    if |chain| <= k then c
    else LeaveDown(t, LeaveCall(t, c, chain[|chain| - 1]).0, chain[..|chain| - 1], k)
  }

  /** The event that the answer of an enter callback makes the dispatcher handle next, while handling `e`. */
  function Consequence(a: Answer, e: Event): Option<Event> {
    match a
    case Succeed => None
    case Fail => if e == StateError then None else Some(StateError)
    case Raise(ev) => Some(ev)
  }

  /** Runs the enter callback of `s`, and whatever it causes, while handling `e`. */
  ghost function EnterCall(t: Table, c: Config, s: State, e: Event): (r: Config)
    requires Forest(t) && InTable(t, c.cur) && InTable(t, s)
    ensures InTable(t, r.cur) && |r.script| <= |c.script|
    decreases |c.script|, 0, 0
  {
    var (a, rest) := NextAnswer(t.states[s].enter, c.script);
    var c' := Config(c.cur, c.log + [Enter(s, a)], rest);
    match Consequence(a, e)
    case None => c'
    case Some(ev) => Dispatch(t, c', ev)
  }

  /** Reports and enters the states of `path`, outermost first. */
  ghost function EnterParents(t: Table, c: Config, path: seq<State>, e: Event): (r: Config)
    requires Forest(t) && InTable(t, c.cur) && forall s <- path :: InTable(t, s)
    ensures InTable(t, r.cur) && |r.script| <= |c.script|
    decreases |c.script|, 1, |path|
  {
    if path == [] then c
    else EnterParents(t, EnterCall(t, c.Log(Report(path[0])), path[0], e), path[1..], e)
  }

  /** Moves through first children until there is none, or until a callback changed the state itself. */
  ghost function Descend(t: Table, c: Config, e: Event): (r: Config)
    requires Forest(t) && InTable(t, c.cur)
    ensures InTable(t, r.cur) && |r.script| <= |c.script|
    decreases |c.script|, 1, |t.states| - t.level[c.cur]
  {
    assert Linked(t, c.cur);
    match t.states[c.cur].firstChild
    case None => c
    case Some(k) =>
      var c' := EnterCall(t, Config(k, c.log + [Report(k)], c.script), k, e);
      if c'.cur != k then c' else Descend(t, c', e)
  }

  /** The second half of a transition: from the moment the current state becomes `x`. */
  ghost function Arrive(t: Table, c: Config, x: State, shared: nat, e: Event): (r: Config)
    requires Forest(t) && InTable(t, x) && shared <= t.level[x]
    ensures InTable(t, r.cur) && |r.script| <= |c.script|
    decreases |c.script|, 2, 0
  {
    var c1 := EnterParents(t, c.(cur := x), ProperChain(t, x)[shared..], e);
    var c2 := EnterCall(t, c1, c1.cur, e);
    var c3 := c2.Log(Report(c2.cur));
    if c3.cur != x then c3 else Descend(t, c3, e)
  }

  /** One event, handled to completion. */
  ghost function Dispatch(t: Table, c: Config, e: Event): (r: Config)
    requires Forest(t) && InTable(t, c.cur)
    ensures InTable(t, r.cur) && |r.script| <= |c.script|
    decreases |c.script|, 3, 0
  {
    match Target(t, c.cur, e)
    case None => c
    case Some(x) =>
      var (c1, ok) := LeaveCall(t, c, c.cur);
      var c2 := if ok || e == StateError then c1 else Dispatch(t, c1, StateError);
      if c2.cur != c.cur then c2
      else
        var shared := Shared(t, c.cur, x);
        Arrive(t, LeaveDown(t, c2, ProperChain(t, c.cur), shared), x, shared, e)
  }

  /** A whole run: the events are handled one after the other. */
  ghost function Run(t: Table, c: Config, events: seq<Event>): (r: Config)
    requires Forest(t) && InTable(t, c.cur)
    ensures InTable(t, r.cur) && |r.script| <= |c.script|
    decreases |events|
  {
    if events == [] then c
    else Dispatch(t, Run(t, c, events[..|events| - 1]), events[|events| - 1])
  }
}
