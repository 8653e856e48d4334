/** The recordings waiting for a break scan: in the order they were queued, each once. */
module BreakQueue {

  predicate NoRepeats(ids: seq<int>) {
    forall i, j :: 0 <= i < j < |ids| ==> ids[i] != ids[j]
  }

  /** pending with id at its end, unless it waits already or is no recording. */
  function Queued(pending: seq<int>, id: int): seq<int> {
    if id == 0 || id in pending then pending else pending + [id]
  }

  function QueuedAll(pending: seq<int>, ids: seq<int>): seq<int>
    decreases ids
  {
    if ids == [] then pending else QueuedAll(Queued(pending, ids[0]), ids[1..])
  }

  class Queue {
    var pending: seq<int>
    var queued: set<int>
    /** The library file that waits, or 0. */
    var libraryQueued: int
    /** A library file waits for a quiet hour with room. */
    var libraryHeld: bool

    ghost predicate Valid()
      reads this
    {
      && NoRepeats(pending) && 0 !in pending
      && (forall id :: id in queued <==> id in pending)
      && (libraryQueued != 0 ==> libraryQueued in pending)
    }

    constructor ()
      ensures Valid() && pending == [] && libraryQueued == 0 && !libraryHeld
    {
      pending, queued, libraryQueued, libraryHeld := [], {}, 0, false;
    }

    method Push(id: int)
      requires Valid()
      modifies this`pending, this`queued
      ensures Valid() && pending == Queued(old(pending), id)
    {
      if id != 0 && id !in queued {
        queued := queued + {id};
        pending := pending + [id];
      }
    }

    /** With nothing waiting, no library file waits either: the one it may queue goes in alone. */
    method EnqueueLibrary(next: int, blocked: bool, fits: bool)
      requires Valid() && pending == []
      modifies this
      ensures Valid()
      ensures next != 0 && !blocked && fits ==> pending == [next] && libraryQueued == next && !libraryHeld
      ensures !(next != 0 && !blocked && fits) ==>
        pending == [] && libraryQueued == 0 && libraryHeld == (next != 0)
    {
      if libraryQueued != 0 {
        return;
      }
      if next == 0 {
        libraryHeld := false;
        return;
      }
      if blocked || !fits {
        libraryHeld := true;
        return;
      }
      libraryHeld := false;
      Push(next);
      libraryQueued := next;
    }

    /** A library file at the head is set aside while blocked, and holds up nothing behind it. */
    method SetAside(blocked: bool) returns (aside: bool)
      requires Valid() && pending != []
      modifies this
      ensures Valid() && aside == (blocked && old(pending[0] == libraryQueued))
      ensures pending == (if aside then old(pending)[1..] else old(pending))
      ensures libraryQueued == (if aside then 0 else old(libraryQueued))
      ensures libraryHeld == (aside || old(libraryHeld))
    {
      aside := pending[0] == libraryQueued && blocked;
      if aside {
        RemoveHead();
        libraryQueued := 0;
        libraryHeld := true;
      }
    }

    /** Takes the head after a wait in which these were queued. */
    method TakeHead(arrivals: seq<int>) returns (id: int)
      requires Valid() && pending != []
      modifies this
      ensures Valid() && id == old(pending[0]) && id !in pending
      ensures [id] + pending == QueuedAll(old(pending), arrivals)
      ensures libraryQueued == (if id == old(libraryQueued) then 0 else old(libraryQueued))
      ensures libraryHeld == old(libraryHeld)
    {
      for i := 0 to |arrivals|
        invariant Valid() && libraryQueued == old(libraryQueued) && libraryHeld == old(libraryHeld)
        invariant pending != [] && pending[0] == old(pending[0])
        invariant QueuedAll(pending, arrivals[i..]) == QueuedAll(old(pending), arrivals)
      {
        assert arrivals[i..][0] == arrivals[i] && arrivals[i..][1..] == arrivals[i + 1..];
        Push(arrivals[i]);
      }
      id := pending[0];
      if id == libraryQueued {
        libraryQueued := 0;
      }
      RemoveHead();
    }

    method RemoveHead()
      requires NoRepeats(pending) && 0 !in pending && pending != []
      requires forall id :: id in queued <==> id in pending
      requires libraryQueued != 0 ==> libraryQueued in pending
      modifies this`pending, this`queued
      ensures NoRepeats(pending) && 0 !in pending && pending == old(pending)[1..] && old(pending[0]) !in pending
      ensures forall id :: id in queued <==> id in pending
      ensures libraryQueued != 0 && libraryQueued != old(pending[0]) ==> libraryQueued in pending
    {
      assert pending == [pending[0]] + pending[1..];
      queued := queued - {pending[0]};
      pending := pending[1..];
    }
  }

  /** Queueing keeps what waits in its place, adds each recording once, and loses none. */
  lemma {:induction false} QueuedOnce(pending: seq<int>, ids: seq<int>)
    requires NoRepeats(pending) && 0 !in pending
    ensures var all := QueuedAll(pending, ids);
            && NoRepeats(all) && 0 !in all && pending <= all
            && forall id :: id in all <==> id in pending || (id in ids && id != 0)
    decreases ids
  {
    if ids != [] {
      assert ids == [ids[0]] + ids[1..];
      QueuedOnce(Queued(pending, ids[0]), ids[1..]);
    }
  }
}
