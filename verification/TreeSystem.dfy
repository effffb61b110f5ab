/**
The whole calculation tree as one state machine.

A tree holds, for every process, its state and the messages that are on their way: `down`
are the orders its parent has sent and it has not handled, `up` the responses it has sent
and its parent has not handled.  Both are first-in first-out, and the order in which a
process picks from its different links is left open, so a sequence of moves is one
interleaving of all processes.
*/
module TreeSystem {
  import opened Messages
  import opened NodeSpec
  import Sweep

  /** `attached` is false once the parent has erased its handle on this process, `exited` is
      true once the process has run its destructors.  `counted` and `relayed` are history
      variables that no handler reads: all responses taken from children, and everything
      that was pushed to the ancestor while doing so. */
  datatype Tree = Tree(
    node: NodeState, attached: bool, exited: bool,
    down: seq<Order>, up: seq<Response>, kids: seq<Tree>,
    counted: seq<Response>, relayed: seq<Response>)

  datatype Move =
    | Take                     // handle the next order
    | Count(i: nat)            // handle the next response of child process i
    | Inside(i: nat, m: Move)  // a move of the tree below child process i
    | Beat(time: int)          // send a heartbeat
    | Sweep(late: seq<bool>)   // check the heartbeats of the children
    | Exit                     // the destructors of a stopped process

  function Leaf(id: nat): Tree {
    Tree(NodeState(id, false, true, [], []), true, false, [], [], [], [], [])
  }

  function Send(kid: Tree, orders: seq<Order>): Tree {
    if kid.attached then kid.(down := kid.down + orders) else kid
  }

  /** Push the same orders to every child that still has a handle. */
  function Broadcast(kids: seq<Tree>, orders: seq<Order>): (r: seq<Tree>)
    ensures |r| == |kids|
    ensures forall i :: 0 <= i < |r| ==> r[i] == Send(kids[i], orders)
  {
    seq(|kids|, i requires 0 <= i < |kids| => Send(kids[i], orders))
  }

  lemma BroadcastNothing(ts: seq<Tree>)
    ensures Broadcast(ts, []) == ts
  {
    forall i | 0 <= i < |ts| ensures Broadcast(ts, [])[i] == ts[i] {
      assert ts[i].down + [] == ts[i].down;
    }
  }

  /** The process a successful create starts. */
  function Forks(before: NodeState, after: NodeState): seq<Tree> {
    if |before.children| < |after.children| then [Leaf(after.children[|before.children|].id)] else []
  }

  function AttachedCount(kids: seq<Tree>): nat {
    if kids == [] then 0 else (if kids[0].attached then 1 else 0) + AttachedCount(kids[1..])
  }

  /** Erased handles push a kill signal when they are destroyed. */
  function Detach(kids: seq<Tree>, erased: seq<bool>): (r: seq<Tree>)
    requires AttachedCount(kids) == |erased|
    ensures |r| == |kids|
  {
    if kids == [] then []
    else if !kids[0].attached then [kids[0]] + Detach(kids[1..], erased)
    else
      [if erased[0] then Send(kids[0], [Kill]).(attached := false) else kids[0]] + Detach(kids[1..], erased[1..])
  }

  /** A move is enabled when there is something to handle and the process is still running;
      the pass of its loop in which it is told to stop may still end with a sweep. */
  predicate Enabled(t: Tree, m: Move)
    decreases m
  {
    match m
    case Take => t.node.running && t.down != []
    case Count(i) => t.node.running && i < |t.kids| && t.kids[i].up != [] && LookupOk(t.node, t.kids[i].up[0])
    case Inside(i, m') => i < |t.kids| && Enabled(t.kids[i], m')
    case Beat(_) => t.node.running && !t.node.manager
    case Sweep(late) =>
      !t.exited && |late| == |t.node.children| == AttachedCount(t.kids) && Sweep.Erased(late).Ok?
    case Exit => !t.node.running && !t.exited
  }

  function ApplyTake(t: Tree): Tree
    requires t.down != []
  {
    var e := OnOrder(t.node, t.down[0]);
    t.(node := e.node, down := t.down[1..], up := t.up + e.up,
       kids := Broadcast(t.kids, e.down) + Forks(t.node, e.node))
  }

  function Pop(kid: Tree): Tree
    requires kid.up != []
  {
    kid.(up := kid.up[1..])
  }

  function ApplyCount(t: Tree, i: nat): Tree
    requires i < |t.kids| && t.kids[i].up != [] && LookupOk(t.node, t.kids[i].up[0])
  {
    var r := t.kids[i].up[0];
    var e := OnResponse(t.node, r);
    t.(node := e.node, up := t.up + e.up, kids := t.kids[i := Pop(t.kids[i])],
       counted := t.counted + [r], relayed := t.relayed + e.up)
  }

  function ApplySweep(t: Tree, late: seq<bool>): Tree
    requires |late| == |t.node.children| == AttachedCount(t.kids) && Sweep.Erased(late).Ok?
  {
    var erased := Sweep.Erased(late).value;
    t.(node := t.node.(children := Sweep.Pick(t.node.children, erased, false)),
       up := t.up + Reports(t.node.children, erased),
       kids := Detach(t.kids, erased))
  }

  /** A stopped process redirects a kill signal once more, then destroys its child handles. */
  function ApplyExit(t: Tree): Tree {
    t.(exited := true, kids := Broadcast(t.kids, [Kill, Kill]))
  }

  function Apply(t: Tree, m: Move): Tree
    requires Enabled(t, m)
    decreases m
  {
    match m
    case Take => ApplyTake(t)
    case Count(i) => ApplyCount(t, i)
    case Inside(i, m') => t.(kids := t.kids[i := Apply(t.kids[i], m')])
    case Beat(time) => t.(up := t.up + [Heartbeat(t.node.id, time)])
    case Sweep(late) => ApplySweep(t, late)
    case Exit => ApplyExit(t)
  }

  /** A run: every move is enabled when its turn comes. */
  predicate Possible(t: Tree, ms: seq<Move>)
    decreases |ms|
  {
    ms != [] ==> Enabled(t, ms[0]) && Possible(Apply(t, ms[0]), ms[1..])
  }

  function Run(t: Tree, ms: seq<Move>): Tree
    requires Possible(t, ms)
    decreases |ms|
  {
    if ms == [] then t else Run(Apply(t, ms[0]), ms[1..])
  }

  /** The moves of a tree whose processes neither die nor stop. */
  predicate Calm(m: Move) {
    match m
    case Inside(_, m') => Calm(m')
    case Sweep(_) => false
    case Exit => false
    case _ => true
  }

  predicate AllCalm(ms: seq<Move>) {
    forall m :: m in ms ==> Calm(m)
  }
}
