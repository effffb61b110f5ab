/**
The messages that travel between the client, the manager and the calculation nodes.

The C++ class hierarchy (Message, Request, Command, Authorization, Response, KillSignal)
becomes one datatype per abstract class.  A `double` is an exact real here.
*/
module Messages {

  datatype Option<+T> = None | Some(value: T)

  datatype Result<+T> = Ok(value: T) | Thrown

  datatype Command =
    | Create(newNodeId: nat, parentId: nat)
    | Exec(nodeId: nat, k: seq<real>)
    | PrintTree

  datatype Response =
    | InvalidRequest
    | AuthorizationAccepted
    | AuthorizationDenied
    | BadCreateResp(newNodeId: nat, parentId: nat)
    | GoodCreateResp(id: nat, pid: nat)
    | BadExecResp(id: nat)
    | GoodExecResp(id: nat, sum: real)
    | NodeExistResponse(id: nat)
    | NodeIsDeadResponse(id: nat)
    | Heartbeat(id: nat, time: int)

  datatype Message =
    | CommandMsg(cmd: Command)
    | AuthorizationWithName(endpoint: string, name: string)
    | ResponseMsg(resp: Response)
    | KillSignal

  /** The answer to an exec command: the sum of its numbers. */
  function Sum(k: seq<real>): real {
    if k == [] then 0.0 else Sum(k[..|k| - 1]) + k[|k| - 1]
  }

  lemma SumOfOne(x: real)
    ensures Sum([x]) == x
  {
    assert [x][..0] == [];
  }

  /** The numbers may be added up in two parts; with the sum of one number that fixes the sum. */
  lemma {:induction false} SumOfBoth(a: seq<real>, b: seq<real>)
    ensures Sum(a + b) == Sum(a) + Sum(b)
    decreases |b|
  {
    if b == [] {
      assert a + b == a;
    } else {
      assert (a + b)[..|a + b| - 1] == a + b[..|b| - 1];
      SumOfBoth(a, b[..|b| - 1]);
    }
  }
}
