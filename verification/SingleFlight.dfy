/** The gate of the tail loop: first with each call atomic, then with every atomic access its own step. */
module SingleFlight {
  import opened Prelude

  datatype Offer = Acquired(target: int) | Stashed

  function Highest(a: Option<int>, b: int): int {
    if a.None? then b else Max(a.value, b)
  }

  class Gate {
    var inflight: bool
    var pending: Option<int>

    constructor ()
      ensures !inflight && pending == None
    {
      inflight, pending := false, None;
    }

    /** Nothing is stashed while the gate is free. Calls that do not overlap keep this. */
    ghost predicate Quiet()
      reads this
    {
      !inflight ==> pending.None?
    }

    /** Take a free gate together with whatever was stashed, or stash into a busy one. */
    method Propose(tip: int) returns (o: Offer)
      modifies this
      ensures inflight
      ensures old(inflight) ==> o == Stashed && pending == Some(Highest(old(pending), tip))
      ensures !old(inflight) ==> o == Acquired(Highest(old(pending), tip)) && pending == None
    {
      if !inflight {
        inflight := true;
        var target := Highest(pending, tip);
        pending := None;
        return Acquired(target);
      }
      pending := Some(Highest(pending, tip));
      return Stashed;
    }

    /** Hand the stashed tip to the holder, or free the gate when there is none. */
    method TakePendingAndRelease() returns (next: Option<int>)
      modifies this
      ensures next == old(pending) && pending == None
      ensures inflight == (old(inflight) && old(pending).Some?)
      ensures Quiet()
    {
      if pending.Some? {
        next := pending;
        pending := None;
        return;
      }
      inflight := false;
      return None;
    }
  }
}
