/** The state table. */
module StateTable {
  import opened Wrappers

  // The viewer's hierarchical state table: a forest of states, each with outgoing transitions, an optional parent,
  // an optional first child, and optional enter and leave callbacks.

  type State = nat

  datatype Event =
    | SetCallbacks | OpenFile | CloseFile | Serialize | TokenInserted | TokenRemoved | ReadReady
    | DoPinop | SerializeReady | PinopReady | DataInvalid | StateError | ReaderFound | DeviceChanged
    | ReaderLost | DoChallenge | ChallengeReady | ExportPhoto | ExportPhotoReady

  /** What a callback does: return 0, return something else, or handle an event itself and return 0. */
  datatype Answer = Succeed | Fail | Raise(event: Event)

  /** `enter` and `leave` hold the answers the callback can give; an empty set means there is no callback. */
  datatype StateDef = StateDef(
    out: map<Event, State>,
    firstChild: Option<State>,
    parent: Option<State>,
    enter: set<Answer>,
    leave: set<Answer>)

  /** `level[s]` is the number of ancestors of `s`; it witnesses that parent links are acyclic. */
  datatype Table = Table(states: seq<StateDef>, level: seq<nat>)

  predicate InTable(t: Table, s: State) { s < |t.states| }

  /** The links of `s`: parents are one level up, a first child's parent is its owner, nothing leaves the table. */
  predicate Linked(t: Table, s: State)
    requires InTable(t, s) && |t.level| == |t.states|
  {
    var d := t.states[s];
    && t.level[s] < |t.states|
    && (match d.parent
        case None => t.level[s] == 0
        case Some(p) => InTable(t, p) && t.level[s] == t.level[p] + 1)
    && (match d.firstChild
        case None => true
        case Some(k) => InTable(t, k) && t.states[k].parent == Some(s) && t.level[k] == t.level[s] + 1 < |t.states|)
    && forall e <- d.out :: InTable(t, d.out[e])
  }

  ghost predicate Forest(t: Table) {
    && |t.level| == |t.states|
    && forall s: State {:trigger Linked(t, s)} :: InTable(t, s) ==> Linked(t, s)
  }

  /** The ancestors of `s` from its root down, ending with `s` itself. */
  ghost function Chain(t: Table, s: State): (r: seq<State>)
    requires Forest(t) && InTable(t, s)
    ensures |r| == t.level[s] + 1 && r[t.level[s]] == s
    ensures forall i | 0 <= i < |r| :: InTable(t, r[i]) && t.level[r[i]] == i
    ensures forall i, j | 0 <= i && j == i + 1 < |r| :: InTable(t, r[j]) && t.states[r[j]].parent == Some(r[i])
    ensures InTable(t, r[0]) && t.states[r[0]].parent == None
    decreases t.level[s]
  {
    assert Linked(t, s);
    match t.states[s].parent
    case None => [s]
    case Some(p) => Chain(t, p) + [s]
  }

  /** The ancestors of `s` without `s`. */
  ghost function ProperChain(t: Table, s: State): (r: seq<State>)
    requires Forest(t) && InTable(t, s)
    ensures |r| == t.level[s] && r == Chain(t, s)[..t.level[s]]
  {
    Chain(t, s)[..t.level[s]]
  }

  /** A prefix of a chain is the chain of the state it ends with. */
  lemma {:induction false} ChainPrefix(t: Table, s: State, i: nat)
    requires Forest(t) && InTable(t, s) && i <= t.level[s]
    ensures Chain(t, s)[..i + 1] == Chain(t, Chain(t, s)[i])
    decreases t.level[s]
  {
    assert Linked(t, s);
    if i < t.level[s] {
      var p := t.states[s].parent.value;
      ChainPrefix(t, p, i);
      assert Chain(t, s)[..i + 1] == Chain(t, p)[..i + 1];
    }
  }

  /** Where event `e` leads from `s`: the transition of the nearest of `s` and its ancestors that has one. */
  ghost function Target(t: Table, s: State, e: Event): (r: Option<State>)
    requires Forest(t) && InTable(t, s)
    ensures r.Some? ==> InTable(t, r.value)
    decreases t.level[s]
  {
    assert Linked(t, s);
    if e in t.states[s].out then Some(t.states[s].out[e])
    else match t.states[s].parent
      case None => None
      case Some(p) => Target(t, p, e)
  }

  /** The length of the longest common prefix. */
  ghost function Common(a: seq<State>, b: seq<State>): (n: nat)
    ensures n <= |a| && n <= |b| && a[..n] == b[..n]
    ensures n < |a| && n < |b| ==> a[n] != b[n]
  {
    if a != [] && b != [] && a[0] == b[0] then
      var n := 1 + Common(a[1..], b[1..]);
      assert a[..n] == [a[0]] + a[1..][..n - 1];
      assert b[..n] == [b[0]] + b[1..][..n - 1];
      n
    else 0
  }

  /** The number of states that are proper ancestors of both `s` and `x`. */
  ghost function Shared(t: Table, s: State, x: State): (n: nat)
    requires Forest(t) && InTable(t, s) && InTable(t, x)
    ensures n <= t.level[s] && n <= t.level[x]
    ensures ProperChain(t, s)[..n] == ProperChain(t, x)[..n]
  {
    Common(ProperChain(t, s), ProperChain(t, x))
  }

  /** Following first children from `s`. */
  ghost function Landing(t: Table, s: State): (r: State)
    requires Forest(t) && InTable(t, s)
    ensures InTable(t, r) && Leaf(t, r)
    decreases |t.states| - t.level[s]
  {
    assert Linked(t, s);
    match t.states[s].firstChild
    case None => s
    case Some(k) => Landing(t, k)
  }

  predicate Leaf(t: Table, s: State)
    requires InTable(t, s)
  {
    t.states[s].firstChild.None?
  }

  predicate Quiet(t: Table, s: State)
    requires InTable(t, s)
  {
    t.states[s].enter <= {Succeed}
  }

  predicate RaisesNothing(t: Table, s: State)
    requires InTable(t, s)
  {
    t.states[s].enter <= {Succeed, Fail}
  }

  /** `s` and everything entered below it through first children raise no event of their own. */
  ghost predicate LandsSilently(t: Table, s: State)
    requires Forest(t) && InTable(t, s)
    decreases |t.states| - t.level[s]
  {
    assert Linked(t, s);
    && RaisesNothing(t, s)
    && match t.states[s].firstChild
       case None => true
       case Some(k) => LandsSilently(t, k)
  }

  /** The events that can be handled while `s` is current: any at rest, else only those its callbacks cause. */
  predicate Dispatchable(t: Table, s: State, e: Event)
    requires InTable(t, s)
  {
    || Leaf(t, s)
    || Raise(e) in t.states[s].enter
    || (e == StateError && (Fail in t.states[s].enter || Fail in t.states[s].leave))
  }

  /** The states entered above the target of a transition neither fail nor raise an event. */
  ghost predicate ParentsQuiet(t: Table, s: State, e: Event)
    requires Forest(t) && InTable(t, s)
  {
    Target(t, s, e).Some? ==>
      var x := Target(t, s, e).value;
      forall i | Shared(t, s, x) <= i < t.level[x] :: Quiet(t, Chain(t, x)[i])
  }

  /** After a failing leave the error transition settles elsewhere without raising anything. */
  ghost predicate ErrorSettles(t: Table, s: State)
    requires Forest(t) && InTable(t, s)
  {
    Fail in t.states[s].leave && Target(t, s, StateError).Some? ==>
      var x := Target(t, s, StateError).value;
      LandsSilently(t, x) && Landing(t, x) != s
  }

  /** A forest in which no state that is entered as a parent disturbs the entering. */
  ghost predicate QuietParents(t: Table) {
    && Forest(t)
    && (forall s: State, e: Event {:trigger ParentsQuiet(t, s, e)} :: InTable(t, s) && Dispatchable(t, s, e) ==> ParentsQuiet(t, s, e))
  }

  ghost predicate WellFormed(t: Table) {
    && QuietParents(t)
    && (forall s: State {:trigger ErrorSettles(t, s)} :: InTable(t, s) ==> ErrorSettles(t, s))
  }
}
