/** The event queue. */
module QueueProtocol {
  import opened StateTable

  // The event queue in front of the state machine: any number of threads append items to a linked list, one thread
  // takes them off, and works on each without holding the lock. A step of the model is what one thread does
  // between taking and releasing the lock, or one call made without it.

  datatype Item = Item(id: nat, exiting: bool, event: Event)

  /** Where the consuming thread is. `Holding` and nothing else means that it has the lock; it starts without. */
  datatype Phase = Starting | Holding | Handling(x: Item) | Handled(x: Item) | Done(x: Item) | Waiting | Exited

  /**
  `list` is the linked list and `wake` an outstanding signal to the waiting consumer. The rest is history:
  the items added, and those whose event was handled, whose done callback ran, and which were freed.
  */
  datatype Queue = Queue(
    list: seq<Item>, phase: Phase, wake: bool,
    added: seq<Item>, handled: seq<Item>, done: seq<Item>, freed: seq<Item>)

  const Start := Queue([], Starting, false, [], [], [], [])

  datatype Step = Add(x: Item) | Lock | Test | Handle | RunDone | Free | WakeUp(spurious: bool)

  predicate Enabled(q: Queue, s: Step) {
    match s
    case Add(_) => q.phase != Holding
    case Lock => q.phase == Starting
    case Test => q.phase == Holding
    case Handle => q.phase.Handling?
    case RunDone => q.phase.Handled?
    case Free => q.phase.Done?
    case WakeUp(spurious) => q.phase == Waiting && (spurious || q.wake)
  }

  function Next(q: Queue, s: Step): Queue
    requires Enabled(q, s)
  {
    match s
    case Add(x) => q.(list := q.list + [x], added := q.added + [x], wake := q.phase == Waiting || q.wake)
    case Lock => q.(phase := Holding)
    case Test =>
      if q.list == [] then q.(phase := Waiting, wake := false)
      else if q.list[0].exiting then q.(phase := Exited)
      else q.(phase := Handling(q.list[0]), list := q.list[1..])
    case Handle => q.(phase := Handled(q.phase.x), handled := q.handled + [q.phase.x])
    case RunDone => q.(phase := Done(q.phase.x), done := q.done + [q.phase.x])
    case Free => q.(phase := Holding, freed := q.freed + [q.phase.x])
    case WakeUp(_) => q.(phase := Holding, wake := false)
  }

  /** Any interleaving: steps that are not possible when their turn comes are passed over. */
  function Run(q: Queue, steps: seq<Step>): Queue
    decreases |steps|
  {
    if steps == [] then q
    else
      var q' := Run(q, steps[..|steps| - 1]);
      var s := steps[|steps| - 1];
      if Enabled(q', s) then Next(q', s) else q'
  }

  predicate Stops(x: Item) { x.exiting }

  ghost predicate Conserved(q: Queue) {
    // handled, then being handled, then still listed: the order of addition
    && q.added == q.handled + (if q.phase.Handling? then [q.phase.x] else []) + q.list
    // each handled item is done, and each done item freed, once and in order
    && q.handled == q.done + (if q.phase.Handled? then [q.phase.x] else [])
    && q.done == q.freed + (if q.phase.Done? then [q.phase.x] else [])
    // a stop item is never taken off, so nothing after it is handled
    && (forall x <- q.handled :: !Stops(x))
    && (q.phase.Handling? ==> !Stops(q.phase.x))
    && (q.phase == Exited ==> q.list != [] && Stops(q.list[0]))
    // no wake-up is lost, and none is left over
    && (q.wake <==> q.phase == Waiting && q.list != [])
  }

  lemma NextConserves(q: Queue, s: Step)
    requires Conserved(q) && Enabled(q, s)
    ensures Conserved(Next(q, s))
  {
    var q' := Next(q, s);
    if s.Test? && q.list != [] && !q.list[0].exiting {
      assert q.list == [q.list[0]] + q.list[1..];
    }
  }

  /** Every reachable state, under every interleaving of producers and consumer, is conserved. */
  lemma {:induction false} RunConserves(steps: seq<Step>)
    ensures Conserved(Run(Start, steps))
    decreases |steps|
  {
    if steps != [] {
      RunConserves(steps[..|steps| - 1]);
      var q := Run(Start, steps[..|steps| - 1]);
      if Enabled(q, steps[|steps| - 1]) {
        NextConserves(q, steps[|steps| - 1]);
      }
    }
  }

  /** A run is its steps, one after the other, as far as they are possible. */
  lemma RunOne(q: Queue, steps: seq<Step>, s: Step)
    ensures Run(q, []) == q
    ensures Run(q, steps + [s]) == if Enabled(Run(q, steps), s) then Next(Run(q, steps), s) else Run(q, steps)
  {
    assert (steps + [s])[..|steps|] == steps;
  }

  // ----- Progress -----------------------------------------------------------------------------

  /** What the consumer does when it is scheduled, without help from spurious wake-ups. */
  function Turn(q: Queue): Step {
    match q.phase
    case Starting => Lock
    case Holding => Test
    case Handling(_) => Handle
    case Handled(_) => RunDone
    case Done(_) => Free
    case Waiting => WakeUp(false)
    case Exited => WakeUp(false)
  }

  predicate Stuck(q: Queue) { !Enabled(q, Turn(q)) }

  function Work(q: Queue): nat {
    4 * |q.list| +
    match q.phase
    case Starting => 2
    case Holding => 1
    case Handling(_) => 4
    case Handled(_) => 3
    case Done(_) => 2
    case Waiting => if q.wake then 2 else 0
    case Exited => 0
  }

  /** The consumer running alone until it cannot go on. */
  function Drain(q: Queue): Queue
    decreases Work(q)
  {
    if Stuck(q) then q else Drain(Next(q, Turn(q)))
  }

  /** The items before the first stop item. */
  function BeforeStop(s: seq<Item>): (r: seq<Item>)
    ensures r <= s && (forall x <- r :: !Stops(x)) && (|r| < |s| ==> Stops(s[|r|]))
  {
    if s == [] || Stops(s[0]) then []
    else [s[0]] + BeforeStop(s[1..])
  }

  /** The longest beginning without a stop item is unique. */
  lemma BeforeStopIs(s: seq<Item>, r: seq<Item>)
    requires r <= s && (forall x <- r :: !Stops(x)) && (|r| < |s| ==> Stops(s[|r|]))
    ensures r == BeforeStop(s)
  {
    var b := BeforeStop(s);
    assert forall i | 0 <= i < |b| :: b[i] == s[i] && b[i] in b;
    assert forall i | 0 <= i < |r| :: r[i] == s[i] && r[i] in r;
  }

  /**
  From every conserved state, once producers are quiet, the consumer handles exactly the items before the
  first stop item, frees them all, and then has either exited at that item or sleeps on an empty list.
  */
  lemma {:induction false} DrainHandlesAll(q: Queue)
    requires Conserved(q)
    ensures var d := Drain(q);
            && d.added == q.added && d.handled == BeforeStop(q.added) == d.done == d.freed
            && (d.phase == Exited || (d.phase == Waiting && d.list == [] && d.handled == d.added))
    decreases Work(q)
  {
    if Stuck(q) {
      assert q.phase == Exited ==> q.added[|q.handled|] == q.list[0];
      BeforeStopIs(q.added, q.handled);
    } else {
      NextConserves(q, Turn(q));
      DrainHandlesAll(Next(q, Turn(q)));
    }
  }
}

/** The queue on the heap, with the steps of the protocol as methods. */
module EventQueue {
  import opened QueueProtocol

  class Node {
    const item: Item
    var next: Node?

    constructor (item: Item)
      ensures this.item == item && next == null
    {
      this.item := item;
      next := null;
    }
  }

  ghost function ItemsOf(nodes: seq<Node>): (r: seq<Item>)
    ensures |r| == |nodes| && forall i | 0 <= i < |r| :: r[i] == nodes[i].item
  {
    seq(|nodes|, i requires 0 <= i < |nodes| => nodes[i].item)
  }

  class CommandList {
    var cmdlist: Node?
    /** The node the consumer has taken off and not freed yet. */
    var tmp: Node?
    var phase: Phase
    var wake: bool
    ghost var nodes: seq<Node>
    ghost var freedNodes: set<Node>
    ghost var added: seq<Item>
    ghost var handled: seq<Item>
    ghost var done: seq<Item>
    ghost var freed: seq<Item>

    /** `nodes` is the list from `cmdlist` on; freed nodes are out of reach. */
    ghost predicate Valid()
      reads this, nodes
    {
      && cmdlist == (if nodes == [] then null else nodes[0])
      && (forall i, j | 0 <= i && j == i + 1 < |nodes| :: nodes[i].next == nodes[j])
      && (nodes != [] ==> nodes[|nodes| - 1].next == null)
      && (forall i, j | 0 <= i < j < |nodes| :: nodes[i] != nodes[j])
      && (forall n <- nodes :: n !in freedNodes)
      && (phase.Handling? || phase.Handled? || phase.Done? ==>
            tmp != null && tmp.item == phase.x && tmp !in nodes && tmp !in freedNodes)
    }

    ghost function Items(): seq<Item>
      reads this
    {
      ItemsOf(nodes)
    }

    ghost function Now(): Queue
      reads this
    {
      Queue(Items(), phase, wake, added, handled, done, freed)
    }

    constructor ()
      ensures Valid() && Now() == Start && fresh(nodes)
    {
      cmdlist, tmp, phase, wake := null, null, Starting, false;
      nodes, freedNodes, added, handled, done, freed := [], {}, [], [], [], [];
    }

    /** Walks to the end of the list. */
    method LastNode() returns (ptr: Node)
      requires Valid() && nodes != []
      ensures ptr == nodes[|nodes| - 1]
    {
      ptr := cmdlist;
      ghost var i := 0;
      while ptr.next != null
        invariant i < |nodes| && ptr == nodes[i] && ptr.next == (if i + 1 < |nodes| then nodes[i + 1] else null)
        decreases |nodes| - i
      {
        i := i + 1;
        ptr := ptr.next;
      }
    }

    /** Links a node at the end of the list. */
    method Link(node: Node)
      requires Valid() && node.next == null && node !in nodes && node !in freedNodes && node != tmp
      modifies this`cmdlist, this`nodes, nodes
      ensures Valid() && nodes == old(nodes) + [node]
    {
      if cmdlist == null {
        cmdlist := node;
      } else {
        var last := LastNode();
        last.next := node;
      }
      nodes := nodes + [node];
    }

    /** Adds a new node with the item and signals the consumer. */
    method AddItem(item: Item)
      requires Valid() && Enabled(Now(), Add(item))
      modifies this, nodes
      ensures Valid() && Now() == Next(old(Now()), Add(item))
      ensures |nodes| == |old(nodes)| + 1 && nodes[..|old(nodes)|] == old(nodes) && fresh(nodes[|old(nodes)|])
    {
      var node := new Node(item);
      Link(node);
      assert ItemsOf(nodes) == ItemsOf(old(nodes)) + [item];
      hide ItemsOf;
      added := added + [item];
      if phase == Waiting {
        wake := true;
      }
    }

    /** The thread takes the lock for the first time; items may have been added before. */
    method TakeLock()
      requires Valid() && Enabled(Now(), Lock)
      modifies this`phase
      ensures Valid() && Now() == Next(old(Now()), Lock)
    {
      phase := Holding;
    }

    /** The loop test: wait, stop, or take the first item off the list and release the lock. */
    method TestList()
      requires Valid() && Enabled(Now(), Test)
      modifies this
      ensures Valid() && Now() == Next(old(Now()), Test)
      ensures nodes == if phase.Handling? then old(nodes)[1..] else old(nodes)
    {
      hide ItemsOf;
      if cmdlist == null {
        phase, wake := Waiting, false;
      } else if cmdlist.item.exiting {
        assert Items()[0] == cmdlist.item;
        phase := Exited;
      } else {
        assert Items()[0] == cmdlist.item;
        tmp := cmdlist;
        cmdlist := cmdlist.next;
        nodes := nodes[1..];
        phase := Handling(tmp.item);
      }
    }

    /** Hands the event to the state machine. */
    method HandleEvent()
      requires Valid() && Enabled(Now(), Handle)
      modifies this
      ensures Valid() && Now() == Next(old(Now()), Handle) && nodes == old(nodes)
    {
      handled := handled + [tmp.item];
      phase := Handled(tmp.item);
    }

    method CallDone()
      requires Valid() && Enabled(Now(), RunDone)
      modifies this
      ensures Valid() && Now() == Next(old(Now()), RunDone) && nodes == old(nodes)
    {
      done := done + [tmp.item];
      phase := Done(tmp.item);
    }

    /** Takes the lock again and frees the node, which was not free before. */
    method FreeNode()
      requires Valid() && Enabled(Now(), Free)
      modifies this
      ensures Valid() && Now() == Next(old(Now()), Free) && nodes == old(nodes)
      ensures old(tmp) !in old(freedNodes) && freedNodes == old(freedNodes) + {old(tmp)}
    {
      freedNodes := freedNodes + {tmp};
      freed := freed + [tmp.item];
      phase, tmp := Holding, null;
    }

    method Wake(spurious: bool)
      requires Valid() && Enabled(Now(), WakeUp(spurious))
      modifies this
      ensures Valid() && Now() == Next(old(Now()), WakeUp(spurious)) && nodes == old(nodes)
    {
      phase, wake := Holding, false;
    }
  }
}
