/** The recycling coroutine pool of src/coroutine/coroutine.cpp: a vector of routines
    and a queue of the ids that have finished. S is what a suspended stack holds. */
module Coroutine {
  import opened Text

  datatype Exception = Exception(what: string)

  datatype Routine<S> = Routine(context: S, finished: bool, exception: Option<Exception>)

  /** The thread-local Ordinator. Ids start at 1; current is 0 outside of routines. */
  datatype Pool<S> = Pool(routines: seq<Routine<S>>, finished: seq<nat>, current: nat)

  /** What the code of a routine does between two switches. */
  datatype Slice<S> = Yields(context: S) | Returns(context: S) | Throws(context: S, exception: Exception)

  /** The result of resume: false, true, or the exception it rethrows. */
  datatype Outcome = Refused | Resumed | Raised(exception: Exception)

  function Empty<S>(): Pool<S> {
    Pool([], [], 0)
  }

  predicate IsId<S>(p: Pool<S>, id: nat) {
    1 <= id <= |p.routines|
  }

  predicate Flagged<S>(p: Pool<S>, id: nat) {
    IsId(p, id) && p.routines[id - 1].finished
  }

  predicate Distinct<T(==)>(ids: seq<T>) {
    forall i, j :: 0 <= i < j < |ids| ==> ids[i] != ids[j]
  }

  /** Outside of routines the queue holds exactly the flagged ids, each once, and only
      finished routines keep an exception. */
  predicate Valid<S>(p: Pool<S>) {
    && p.current == 0
    && Distinct(p.finished)
    && (forall i :: 0 <= i < |p.finished| ==> Flagged(p, p.finished[i]))
    && (forall id: nat | id <= |p.routines| :: Flagged(p, id) ==> id in p.finished)
    && (forall i :: 0 <= i < |p.routines| ==> p.routines[i].exception.Some? ==> p.routines[i].finished)
  }

  // ---------------------------------------------------------- the operations

  /** The id that create hands out next. */
  function NextId<S>(p: Pool<S>): nat {
    if p.finished == [] then |p.routines| + 1 else p.finished[0]
  }

  function Created<S>(p: Pool<S>, s: S): Pool<S>
    requires Valid(p)
  {
    if p.finished == [] then p.(routines := p.routines + [Routine(s, false, None)])
    else p.(routines := p.routines[p.finished[0] - 1 := Routine(s, false, None)], finished := p.finished[1..])
  }

  predicate Accepts<S>(p: Pool<S>, id: nat) {
    IsId(p, id) && !p.routines[id - 1].finished
  }

  function Entered<S>(p: Pool<S>, id: nat): Pool<S> {
    p.(current := id)
  }

  function Yielded<S>(p: Pool<S>, s: S): Pool<S>
    requires IsId(p, p.current)
  {
    p.(routines := p.routines[p.current - 1 := p.routines[p.current - 1].(context := s)], current := 0)
  }

  /** The end of entry: the routine returned, or its exception is kept. */
  function Ended<S>(p: Pool<S>, s: S, e: Option<Exception>): Pool<S>
    requires IsId(p, p.current)
  {
    var old_ := p.routines[p.current - 1];
    var kept := if e.Some? then e else old_.exception;
    p.(routines := p.routines[p.current - 1 := Routine(s, true, kept)],
       finished := p.finished + [p.current], current := 0)
  }

  function Switched<S>(p: Pool<S>, slice: Slice<S>): Pool<S>
    requires IsId(p, p.current)
  {
    match slice
    case Yields(s) => Yielded(p, s)
    case Returns(s) => Ended(p, s, None)
    case Throws(s, e) => Ended(p, s, Some(e))
  }

  /** resume(id), when the routine's code then does what slice says. */
  function Resume<S>(p: Pool<S>, id: nat, slice: Slice<S>): (Pool<S>, Outcome) {
    if !Accepts(p, id) then (p, Refused)
    else
      var q := Switched(Entered(p, id), slice);
      (q, if q.routines[id - 1].exception.Some? then Raised(q.routines[id - 1].exception.value) else Resumed)
  }

  lemma CreateValid<S>(p: Pool<S>, s: S)
    requires Valid(p)
    ensures Valid(Created(p, s)) && Accepts(Created(p, s), NextId(p))
    ensures Created(p, s).routines[NextId(p) - 1] == Routine(s, false, None)
    ensures IsId(Created(p, s), NextId(p)) && |p.routines| <= |Created(p, s).routines|
    ensures forall id: nat | id != NextId(p) && IsId(Created(p, s), id) ::
      IsId(p, id) && Created(p, s).routines[id - 1] == p.routines[id - 1]
    ensures forall id: nat | IsId(p, id) :: IsId(Created(p, s), id)
  {
    var q := Created(p, s);
    if p.finished != [] {
      var first := p.finished[0];
      forall i | 0 <= i < |q.finished| ensures Flagged(q, q.finished[i]) {
        assert q.finished[i] == p.finished[i + 1];
        assert Flagged(p, p.finished[i + 1]);
      }
      forall id: nat | Flagged(q, id) ensures id in q.finished {
        assert Flagged(p, id);
        var i :| 0 <= i < |p.finished| && p.finished[i] == id;
        assert q.finished[i - 1] == id;
      }
    } else {
      forall id: nat ensures !Flagged(q, id) {
        assert Flagged(q, id) ==> Flagged(p, id);
      }
    }
  }

  lemma ResumeValid<S>(p: Pool<S>, id: nat, slice: Slice<S>)
    requires Valid(p)
    ensures Valid(Resume(p, id, slice).0)
  {
    if Accepts(p, id) {
      var q := Resume(p, id, slice).0;
      assert id !in p.finished by {
        assert !Flagged(p, id);
      }
      forall i | 0 <= i < |q.finished| ensures Flagged(q, q.finished[i]) {
        assert i < |p.finished| ==> Flagged(p, p.finished[i]);
      }
      forall x: nat | Flagged(q, x) ensures x in q.finished {
        assert x != id ==> Flagged(p, x);
        assert x == id ==> q.finished[|q.finished| - 1] == id;
      }
    }
  }

  /** An exception leaves resume exactly when the routine throws in that very slice;
      one that a reused id inherited is never seen. */
  lemma RaisedExactlyOnce<S>(p: Pool<S>, id: nat, slice: Slice<S>, e: Exception)
    requires Valid(p)
    ensures Resume(p, id, slice).1 == Raised(e) <==> Accepts(p, id) && slice.Throws? && slice.exception == e
    ensures Resume(p, id, slice).1 == Refused <==> !Accepts(p, id)
    ensures Accepts(p, id) && !slice.Yields? ==> !Accepts(Resume(p, id, slice).0, id)
  {
  }

  // -------------------------------------------------------------- whole runs

  datatype Op<S> = OpCreate(context: S) | OpResume(id: nat, slice: Slice<S>)

  function Exec<S>(p: Pool<S>, op: Op<S>): (q: Pool<S>)
    requires Valid(p)
    ensures Valid(q)
  {
    match op
    case OpCreate(s) => CreateValid(p, s); Created(p, s)
    case OpResume(id, slice) => ResumeValid(p, id, slice); Resume(p, id, slice).0
  }

  function RunOps<S>(p: Pool<S>, ops: seq<Op<S>>): (q: Pool<S>)
    requires Valid(p)
    ensures Valid(q)
    decreases |ops|
  {
    if ops == [] then p else RunOps(Exec(p, ops[0]), ops[1..])
  }

  /** Routines that have been created and not finished. */
  function CountUnfinished<S>(rs: seq<Routine<S>>): (n: nat)
    ensures n <= |rs|
  {
    if rs == [] then 0 else (if rs[0].finished then 0 else 1) + CountUnfinished(rs[1..])
  }

  function Unfinished<S>(p: Pool<S>): nat {
    CountUnfinished(p.routines)
  }

  function Max(a: nat, b: nat): nat {
    if a < b then b else a
  }

  /** The greatest number of unfinished routines at any moment of the run. */
  function Peak<S>(p: Pool<S>, ops: seq<Op<S>>): nat
    requires Valid(p)
    decreases |ops|
  {
    if ops == [] then Unfinished(p) else Max(Unfinished(p), Peak(Exec(p, ops[0]), ops[1..]))
  }

  lemma {:induction false} AllUnfinished<S>(rs: seq<Routine<S>>)
    requires forall i :: 0 <= i < |rs| ==> !rs[i].finished
    ensures CountUnfinished(rs) == |rs|
  {
    if rs != [] {
      AllUnfinished(rs[1..]);
    }
  }

  lemma UnfinishedBound<S>(p: Pool<S>)
    requires Valid(p)
    ensures Unfinished(p) <= |p.routines|
    ensures p.finished == [] ==> Unfinished(p) == |p.routines|
  {
    if p.finished == [] {
      forall i | 0 <= i < |p.routines| ensures !p.routines[i].finished {
        assert !Flagged(p, i + 1);
      }
      AllUnfinished(p.routines);
    }
  }

  /** Memory bound: over any run the vector is exactly as long as the greatest number
      of routines that were ever unfinished together. */
  lemma {:induction false} MemoryIsPeak<S>(p: Pool<S>, ops: seq<Op<S>>)
    requires Valid(p)
    ensures |RunOps(p, ops).routines| == Max(|p.routines|, Peak(p, ops))
    decreases |ops|
  {
    UnfinishedBound(p);
    if ops != [] {
      var q := Exec(p, ops[0]);
      MemoryIsPeak(q, ops[1..]);
      UnfinishedBound(q);
      PeakAtLeast(q, ops[1..]);
      if ops[0].OpCreate? && p.finished == [] {
        assert q.finished == [] && |q.routines| == |p.routines| + 1;
      } else {
        assert |q.routines| == |p.routines|;
      }
    }
  }

  lemma PeakAtLeast<S>(p: Pool<S>, ops: seq<Op<S>>)
    requires Valid(p)
    ensures Unfinished(p) <= Peak(p, ops)
  {
  }

  lemma MemoryBound<S>(ops: seq<Op<S>>)
    ensures |RunOps(Empty<S>(), ops).routines| == Peak(Empty<S>(), ops)
  {
    MemoryIsPeak(Empty<S>(), ops);
    UnfinishedBound(Empty<S>());
  }

  /** The ids that finished during the run, in that order. */
  function FinishOrder<S>(p: Pool<S>, ops: seq<Op<S>>): seq<nat>
    requires Valid(p)
    decreases |ops|
  {
    if ops == [] then []
    else FinishedBy(p, ops[0]) + FinishOrder(Exec(p, ops[0]), ops[1..])
  }

  /** The ids that create handed out again during the run, in that order. */
  function ReuseOrder<S>(p: Pool<S>, ops: seq<Op<S>>): seq<nat>
    requires Valid(p)
    decreases |ops|
  {
    if ops == [] then []
    else ReusedBy(p, ops[0]) + ReuseOrder(Exec(p, ops[0]), ops[1..])
  }

  function FinishedBy<S>(p: Pool<S>, op: Op<S>): seq<nat> {
    if op.OpResume? && Accepts(p, op.id) && !op.slice.Yields? then [op.id] else []
  }

  function ReusedBy<S>(p: Pool<S>, op: Op<S>): seq<nat> {
    if op.OpCreate? && p.finished != [] then [NextId(p)] else []
  }

  lemma QueueStep<S>(p: Pool<S>, op: Op<S>)
    requires Valid(p)
    ensures p.finished + FinishedBy(p, op) == ReusedBy(p, op) + Exec(p, op).finished
  {
    hide Valid;
  }

  lemma Splice<T>(queue: seq<T>, now: seq<T>, later: seq<T>,
                  used: seq<T>, next: seq<T>, usedLater: seq<T>, last: seq<T>)
    requires queue + now == used + next && next + later == usedLater + last
    ensures queue + (now + later) == (used + usedLater) + last
  {
    calc {
      queue + (now + later);
      (queue + now) + later;
      used + (next + later);
      (used + usedLater) + last;
    }
  }

  /** Ids are reused in the order in which they finished, none is lost and none is
      handed out twice for one finish. */
  lemma {:induction false} ReuseIsFifo<S>(p: Pool<S>, ops: seq<Op<S>>)
    requires Valid(p)
    ensures p.finished + FinishOrder(p, ops) == ReuseOrder(p, ops) + RunOps(p, ops).finished
    decreases |ops|
  {
    hide Valid, Exec;
    if ops == [] {
      Units(p.finished);
    } else {
      var q := Exec(p, ops[0]);
      QueueStep(p, ops[0]);
      ReuseIsFifo(q, ops[1..]);
      Splice(p.finished, FinishedBy(p, ops[0]), FinishOrder(q, ops[1..]),
             ReusedBy(p, ops[0]), q.finished, ReuseOrder(q, ops[1..]), RunOps(p, ops).finished);
    }
  }

  predicate Reused<S>(p: Pool<S>, id: nat, ops: seq<Op<S>>)
    requires Valid(p)
    decreases |ops|
  {
    ops != [] && ((ops[0].OpCreate? && NextId(p) == id) || Reused(Exec(p, ops[0]), id, ops[1..]))
  }

  /** A finished id stays finished, whatever else runs, until create reuses it. */
  lemma {:induction false} FinishedStays<S>(p: Pool<S>, id: nat, ops: seq<Op<S>>, slice: Slice<S>)
    requires Valid(p) && Flagged(p, id) && !Reused(p, id, ops)
    ensures Resume(RunOps(p, ops), id, slice).1 == Refused
    decreases |ops|
  {
    if ops != [] {
      if ops[0].OpCreate? {
        CreateValid(p, ops[0].context);
      }
      FinishedStays(Exec(p, ops[0]), id, ops[1..], slice);
    }
  }

  // --------------------------------------------------------------- the object

  class Ordinator<S> {
    var routines: seq<Routine<S>>
    var finished: seq<nat>
    var current: nat

    ghost function View(): Pool<S>
      reads this
    {
      Pool(routines, finished, current)
    }

    constructor ()
      ensures View() == Empty() && Valid(View())
    {
      routines, finished, current := [], [], 0;
    }

    /** create(function) */
    method Create(s: S) returns (id: nat)
      requires Valid(View())
      modifies this
      ensures id == NextId(old(View())) && View() == Created(old(View()), s) && Valid(View())
    {
      CreateValid(View(), s);
      if finished == [] {
        routines := routines + [Routine(s, false, None)];
        id := |routines|;
      } else {
        id := finished[0];
        assert Flagged(View(), id);
        finished := finished[1..];
        routines := routines[id - 1 := Routine(s, false, None)];
      }
    }

    /** resume(id) up to the switch into the routine. */
    method Enter(id: nat) returns (ok: bool)
      modifies this
      ensures ok == Accepts(old(View()), id)
      ensures View() == if ok then Entered(old(View()), id) else old(View())
    {
      if id == 0 || id > |routines| {
        return false;
      }
      if routines[id - 1].finished {
        return false;
      }
      current := id;
      return true;
    }

    /** yield() */
    method Yield(s: S)
      requires IsId(View(), current)
      modifies this
      ensures View() == Yielded(old(View()), s)
    {
      var id := current;
      current := 0;
      routines := routines[id - 1 := routines[id - 1].(context := s)];
    }

    /** The end of entry, after the routine's function has returned or thrown. */
    method Finish(s: S, e: Option<Exception>)
      requires IsId(View(), current)
      modifies this
      ensures View() == Ended(old(View()), s, e)
    {
      var id := current;
      routines := routines[id - 1 := routines[id - 1].(context := s)];
      if e.Some? {
        routines := routines[id - 1 := routines[id - 1].(exception := e)];
      }
      routines := routines[id - 1 := routines[id - 1].(finished := true)];
      current := 0;
      finished := finished + [id];
    }

    /** finished(id) */
    method IsFinished(id: nat) returns (b: bool)
      requires IsId(View(), id)
      ensures b == Flagged(View(), id)
    {
      return routines[id - 1].finished;
    }
  }
}
