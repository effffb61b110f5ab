/**
One process of the calculation tree as a value: what its message handlers do to its
state, to its link to the ancestor and to its links to the children.

The manager (class CalcTree) and the calculation nodes (class CalcTreeNode) share every
handler except the one for exec, so they are one entity here, told apart by `manager`.
*/
module NodeSpec {
  import opened Messages

  /** The command types that a record can have. */
  datatype Kind = CreateKind | ExecKind

  /** What a process remembers of a command it has passed on to its children. */
  datatype Record = Record(kind: Kind, count: nat, good: bool)

  /** A parent's handle on one child. */
  datatype Child = Child(id: nat, pid: nat, lastBeat: int)

  datatype NodeState = NodeState(id: nat, manager: bool, running: bool, children: seq<Child>, records: seq<Record>)

  /** What fork does, should a create command make a process call it. */
  datatype Fork = Forked(pid: nat, at: int) | ForkFailed

  /** What travels from a parent to a child.  `fork` is chosen with the command, because a
      command makes at most one process fork on its way; it is not part of the message. */
  datatype Order = Do(cmd: Command, fork: Fork) | Kill

  /** The outcome of one handler: the new state, what is pushed to the ancestor, and what
      is pushed to every child that was in the list before the handler ran. */
  datatype Effect = Effect(node: NodeState, up: seq<Response>, down: seq<Order>)

  function Fresh(kind: Kind): Record {
    Record(kind, 0, false)
  }

  // ---------------------------------------------------------------- records

  /** Position of the first record of a kind; |records| when there is none. */
  function Find(records: seq<Record>, kind: Kind): (i: nat)
    ensures i <= |records|
    ensures i < |records| ==> records[i].kind == kind
    ensures forall j :: 0 <= j < i ==> records[j].kind != kind
  {
    if records == [] || records[0].kind == kind then 0 else 1 + Find(records[1..], kind)
  }

  function Without(records: seq<Record>, i: nat): seq<Record>
    requires i < |records|
  {
    records[..i] + records[i + 1..]
  }

  /** Record i after one more response. */
  function Counted(r: Record, good: bool): Record {
    Record(r.kind, r.count + 1, r.good || good)
  }

  // ---------------------------------------------------------------- responses

  predicate IsGood(r: Response) {
    r.GoodExecResp? || r.GoodCreateResp?
  }

  predicate IsBad(r: Response) {
    r.BadExecResp? || r.BadCreateResp?
  }

  /** The responses that are looked up in the record list. */
  predicate IsAnswer(r: Response) {
    IsGood(r) || IsBad(r) || r.NodeExistResponse?
  }

  function KindOf(r: Response): Kind {
    if r.BadExecResp? || r.GoodExecResp? then ExecKind else CreateKind
  }

  /** The search for a record has no end check: the record must be there. */
  predicate LookupOk(s: NodeState, r: Response) {
    IsAnswer(r) ==> Find(s.records, KindOf(r)) < |s.records|
  }

  /** Counting a good or a bad response in the first record of its kind. */
  function OnCounted(s: NodeState, r: Response): Effect
    requires IsGood(r) || IsBad(r)
    requires LookupOk(s, r)
  {
    var i := Find(s.records, KindOf(r));
    var rec := Counted(s.records[i], IsGood(r));
    var full := rec.count == |s.children|;
    if full && (IsGood(r) || !rec.good) then
      Effect(s.(records := Without(s.records, i)), [r], [])
    else
      Effect(s.(records := s.records[i := rec]), if IsGood(r) then [r] else [], [])
  }

  function OnNodeExist(s: NodeState, r: Response): Effect
    requires r.NodeExistResponse?
    requires LookupOk(s, r)
  {
    Effect(s.(records := Without(s.records, Find(s.records, CreateKind))), [r], [])
  }

  /** The first child with that id gets the new time stamp. */
  function Stamp(children: seq<Child>, id: nat, time: int): (r: seq<Child>)
    ensures |r| == |children|
    ensures forall i :: 0 <= i < |r| ==> r[i].id == children[i].id && r[i].pid == children[i].pid
  {
    if children == [] then []
    else if children[0].id == id then [children[0].(lastBeat := time)] + children[1..]
    else [children[0]] + Stamp(children[1..], id, time)
  }

  function OnResponse(s: NodeState, r: Response): Effect
    requires LookupOk(s, r)
  {
    if IsGood(r) || IsBad(r) then OnCounted(s, r)
    else if r.NodeExistResponse? then OnNodeExist(s, r)
    else if r.Heartbeat? then Effect(s.(children := Stamp(s.children, r.id, r.time)), [], [])
    else Effect(s, [r], [])
  }

  // ---------------------------------------------------------------- commands

  /** The pid of the first child with that id. */
  function PidOf(children: seq<Child>, id: nat): nat
    requires exists c :: c in children && c.id == id
  {
    if children[0].id == id then children[0].pid else PidOf(children[1..], id)
  }

  lemma {:induction false} PidFirst(children: seq<Child>, id: nat, i: nat)
    requires i < |children| && children[i].id == id && forall j :: 0 <= j < i ==> children[j].id != id
    ensures PidOf(children, id) == children[i].pid
  {
    if i > 0 {
      assert children[1..][i - 1] == children[i];
      PidFirst(children[1..], id, i - 1);
    }
  }

  /** A process without children answers for the subtree it does not have. */
  function DeadEnd(c: Command): seq<Response> {
    match c
    case Exec(id, _) => [BadExecResp(id)]
    case Create(x, p) => [BadCreateResp(p, x)]
    case PrintTree => []
  }

  /** Pass a command on to the children and remember it; a dead end leaves its record too. */
  function Redirect(s: NodeState, c: Command, fork: Fork, kind: Kind): Effect {
    var s' := s.(records := s.records + [Fresh(kind)]);
    if s.children == [] then Effect(s', DeadEnd(c), []) else Effect(s', [], [Do(c, fork)])
  }

  function OnExec(s: NodeState, c: Command, fork: Fork): Effect
    requires c.Exec?
  {
    if !s.manager && c.nodeId == s.id then Effect(s, [GoodExecResp(s.id, Sum(c.k))], [])
    else Redirect(s, c, fork, ExecKind)
  }

  /** A new child process is started, or that fails. */
  function Started(s: NodeState, newNodeId: nat, fork: Fork): Effect {
    match fork
    case ForkFailed => Effect(s, [BadCreateResp(s.id, newNodeId)], [])
    case Forked(pid, at) =>
      var children := s.children + [Child(newNodeId, pid, at)];
      assert children[|s.children|].id == newNodeId;
      Effect(s.(children := children), [GoodCreateResp(newNodeId, PidOf(children, newNodeId))], [])
  }

  function OnCreate(s: NodeState, c: Command, fork: Fork): Effect
    requires c.Create?
  {
    if c.newNodeId == s.id then Effect(s, [NodeExistResponse(s.id)], [])
    else if c.parentId == s.id then Started(s, c.newNodeId, fork)
    else Redirect(s, c, fork, CreateKind)
  }

  function OnOrder(s: NodeState, o: Order): Effect {
    match o
    case Kill => Effect(s.(running := false), [], [Kill])
    case Do(c, fork) =>
      match c
      case Exec(_, _) => OnExec(s, c, fork)
      case Create(_, _) => OnCreate(s, c, fork)
      case PrintTree => Effect(s, [], [])
  }

  // ---------------------------------------------------------------- the heartbeat sweep

  /** Which children have not been heard of for longer than the period, each judged by the
      clock reading taken when the sweep gets to it. */
  function Late(children: seq<Child>, clock: seq<int>, period: int): (late: seq<bool>)
    requires |clock| == |children|
    ensures |late| == |children|
  {
    seq(|children|, i requires 0 <= i < |children| => period < clock[i] - children[i].lastBeat)
  }

  /** One report for every child that is erased. */
  function Reports(children: seq<Child>, erased: seq<bool>): seq<Response>
    requires |children| == |erased|
  {
    if children == [] then []
    else (if erased[0] then [NodeIsDeadResponse(children[0].id)] else []) + Reports(children[1..], erased[1..])
  }
}
