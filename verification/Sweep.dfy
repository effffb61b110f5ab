/**
The heartbeat sweep: a parent walks its child list, reports and erases every child whose
last heartbeat is too old, and by stepping on after an erase skips the child behind it.
*/
module Sweep {
  import opened Messages

  /** Which children one walk erases, from which of them are late.  When the last child of the
      list is erased the walk steps past the end of the list: `Thrown`. */
  function Erased(late: seq<bool>): (e: Result<seq<bool>>)
    ensures e.Ok? ==> |e.value| == |late|
  {
    if late == [] then Ok([])
    else if !late[0] then
      match Erased(late[1..])
      case Ok(e) => Ok([false] + e)
      case Thrown => Thrown
    else if |late| == 1 then Thrown
    else
      match Erased(late[2..])
      case Ok(e) => Ok([true, false] + e)
      case Thrown => Thrown
  }

  /** The elements whose flag is `flag`, in order. */
  function Pick<T>(xs: seq<T>, flags: seq<bool>, flag: bool): seq<T>
    requires |xs| == |flags|
  {
    if xs == [] then []
    else (if flags[0] == flag then [xs[0]] else []) + Pick(xs[1..], flags[1..], flag)
  }
}
