/** The shared map under any interleaving behaves like one map to which the operations
    were applied in the order in which the mutex was acquired. */
module MapLaws {
  import opened Text
  import opened SharedMemory
  import opened AllocatorLaws

  function Before(log: seq<Entry>): seq<Entry>
    requires log != []
  {
    log[..|log| - 1]
  }

  function Last(log: seq<Entry>): Entry
    requires log != []
  {
    log[|log| - 1]
  }

  /** The sequential map after these operations with these replies. */
  function Contents(log: seq<Entry>): map<Key, Value>
    decreases |log|
  {
    if log == [] then map[]
    else if Last(log).reply.None? then Contents(Before(log))
    else After(Contents(Before(log)), Last(log).op, Last(log).reply.value)
  }

  /** Each operation was answered as the sequential map answers it. */
  predicate Linear(log: seq<Entry>)
    decreases |log|
  {
    log == [] ||
    (Linear(Before(log)) && Last(log).reply.Some? &&
     Allowed(Contents(Before(log)), Last(log).op, Last(log).reply.value))
  }

  // ------------------------------------------------- inside the critical section

  predicate Inserting(who: Caller, op: Op, m: map<Key, Value>, now: map<Key, Value>) {
    who.ForInsert? ==> op == Insert(who.key, who.value) && who.key !in m && now == m
  }

  predicate Erasing(erasing: bool, op: Op, m: map<Key, Value>, now: map<Key, Value>) {
    erasing ==> op.Erase? && op.key in m && now == m - {op.key}
  }

  /** How far the holder has come with op on the map m; now is the shared map. */
  predicate Inside(pc: Pc, op: Op, m: map<Key, Value>, now: map<Key, Value>) {
    match pc
    case Look(o) => o == op && now == m
    case WaitAlloc(_, who) => Inserting(who, op, m, now)
    case ReadStart(_, who) => Inserting(who, op, m, now)
    case Test(_, _, who) => Inserting(who, op, m, now)
    case Bump(_, _, who) => Inserting(who, op, m, now)
    case PostAlloc(_, _, who) => Inserting(who, op, m, now)
    case Link(k, v, _) => Inserting(ForInsert(k, v), op, m, now)
    case WaitFree(_, _, erasing) => Erasing(erasing, op, m, now)
    case Compare(_, _, erasing) => Erasing(erasing, op, m, now)
    case Lower(_, _, erasing) => Erasing(erasing, op, m, now)
    case PostFree(erasing) => Erasing(erasing, op, m, now)
    case Unlock(r) => Allowed(m, op, r) && now == After(m, op, r)
    case _ => true
  }

  /** The holder's operation is the last of the log, and is not answered yet. */
  predicate Working(s: State, i: nat)
    requires i < |s.procs|
  {
    && s.log != [] && Last(s.log).pid == i && Last(s.log).reply == None
    && Linear(Before(s.log))
    && Inside(s.procs[i], Last(s.log).op, Contents(Before(s.log)), Values(s.nodes))
  }

  predicate Agrees(s: State) {
    && (s.mapSem == 1 ==> Linear(s.log) && Contents(s.log) == Values(s.nodes))
    && (forall i: nat | i < |s.procs| :: InMap(s.procs[i]) ==> Working(s, i))
  }

  lemma LookedInside(s: State, i: nat, op: Op, m: map<Key, Value>)
    requires i < |s.procs| && s.procs[i] == Look(op) && Inside(s.procs[i], op, m, Values(s.nodes))
    ensures var r := Looked(s, i, op);
            Inside(r.procs[i], op, m, Values(r.nodes)) && r.log == s.log && InMap(r.procs[i]) && r.mapSem == s.mapSem
  {
    if op.Insert? && op.key in s.nodes {
      assert Values(Looked(s, i, op).nodes) == m[op.key := op.value];
    }
  }

  /** The allocator's code changes neither the map nor the log. */
  predicate OnlyMemory(s: State, r: State, i: nat)
    requires i < |s.procs|
  {
    && r.log == s.log && r.nodes == s.nodes && r.mapSem == s.mapSem && r.time == s.time + 1
    && |r.procs| == |s.procs| && InMap(r.procs[i]) == InMap(s.procs[i]) && !r.procs[i].WaitMap?
  }

  lemma AllocateQuiet(s: State, i: nat)
    requires i < |s.procs| && Allocating(s.procs[i]) && Ready(s, s.procs[i])
    ensures OnlyMemory(s, AllocateStep(s, i), i)
    ensures forall op, m | InMap(s.procs[i]) && Inside(s.procs[i], op, m, Values(s.nodes)) ::
      Inside(AllocateStep(s, i).procs[i], op, m, Values(s.nodes))
  {
    hide NewOwner, Values;
  }

  lemma DeallocateQuiet(s: State, i: nat)
    requires i < |s.procs| && Deallocating(s.procs[i]) && Ready(s, s.procs[i])
    ensures OnlyMemory(s, DeallocateStep(s, i), i)
    ensures forall op, m | InMap(s.procs[i]) && Inside(s.procs[i], op, m, Values(s.nodes)) ::
      Inside(DeallocateStep(s, i).procs[i], op, m, Values(s.nodes))
  {
    hide Values;
  }

  lemma MemoryQuiet(s: State, i: nat)
    requires i < |s.procs| && (Allocating(s.procs[i]) || Deallocating(s.procs[i])) && Ready(s, s.procs[i])
    ensures OnlyMemory(s, Gone(s, i), i)
    ensures forall op, m | InMap(s.procs[i]) && Inside(s.procs[i], op, m, Values(s.nodes)) ::
      Inside(Gone(s, i).procs[i], op, m, Values(s.nodes))
  {
    hide AllocateStep, DeallocateStep, Inside, Values, OnlyMemory;
    if Allocating(s.procs[i]) {
      AllocateQuiet(s, i);
    } else {
      DeallocateQuiet(s, i);
    }
  }

  lemma GoneInside(s: State, i: nat, op: Op, m: map<Key, Value>)
    requires i < |s.procs| && InMap(s.procs[i]) && Inside(s.procs[i], op, m, Values(s.nodes)) && Ready(s, s.procs[i])
    requires !s.procs[i].Unlock?
    ensures var r := Gone(s, i);
            Inside(r.procs[i], op, m, Values(r.nodes)) && r.log == s.log && InMap(r.procs[i]) && r.mapSem == s.mapSem
  {
    hide Looked, AllocateStep, DeallocateStep, Inserting, Erasing, Allowed, After, Values;
    var pc := s.procs[i];
    if pc.Look? {
      LookedInside(s, i, op, m);
    } else if pc.Link? {
      LinkInside(s, i, op, m);
    } else {
      MemoryQuiet(s, i);
    }
  }

  lemma LinkInside(s: State, i: nat, op: Op, m: map<Key, Value>)
    requires i < |s.procs| && s.procs[i].Link? && Inside(s.procs[i], op, m, Values(s.nodes))
    ensures var r := Gone(s, i); Inside(r.procs[i], op, m, Values(r.nodes))
  {
    assert Values(Gone(s, i).nodes) == m[op.key := op.value];
  }

  /** A process that is and stays outside touches neither the map nor the log. */
  lemma OutsideQuiet(s: State, m: Move)
    requires Can(s, m) && !InMap(s.procs[m.pid]) && !InMap(Step(s, m).procs[m.pid])
    ensures var r := Step(s, m); r.log == s.log && r.nodes == s.nodes && r.mapSem == s.mapSem
  {
    hide Own, AllocateStep, DeallocateStep;
    if m.Go? && (Allocating(s.procs[m.pid]) || Deallocating(s.procs[m.pid])) {
      MemoryQuiet(s, m.pid);
    }
  }

  lemma OnlyOneMoves(s: State, m: Move)
    requires Can(s, m)
    ensures var r := Step(s, m); |r.procs| == |s.procs| && r.procs == s.procs[m.pid := r.procs[m.pid]]
    ensures InMap(s.procs[m.pid]) || InMap(Step(s, m).procs[m.pid]) ==> m.Go?
    ensures !InMap(s.procs[m.pid]) && InMap(Step(s, m).procs[m.pid]) ==> s.procs[m.pid].WaitMap? && s.mapSem > 0
    ensures InMap(s.procs[m.pid]) && !InMap(Step(s, m).procs[m.pid]) ==> s.procs[m.pid].Unlock?
  {
    hide Gone, Called, InMap;
    StepBalanced(s, m);
    Crossing(s, m);
  }

  lemma Crossing(s: State, m: Move)
    requires Can(s, m)
    ensures InMap(s.procs[m.pid]) || InMap(Step(s, m).procs[m.pid]) ==> m.Go?
    ensures !InMap(s.procs[m.pid]) && InMap(Step(s, m).procs[m.pid]) ==> s.procs[m.pid].WaitMap? && s.mapSem > 0
    ensures InMap(s.procs[m.pid]) && !InMap(Step(s, m).procs[m.pid]) ==> s.procs[m.pid].Unlock?
  {
    hide Replied, Own, InAlloc, AllocateStep, DeallocateStep;
    if m.Go? && (Allocating(s.procs[m.pid]) || Deallocating(s.procs[m.pid])) {
      MemoryQuiet(s, m.pid);
    }
  }

  lemma AcquireAgrees(s: State, i: nat)
    requires Mutex(s) && Agrees(s) && i < |s.procs| && s.procs[i].WaitMap? && s.mapSem > 0
    ensures Agrees(Gone(s, i))
  {
    hide InMap, InAlloc, Contents, Linear;
    var r := Gone(s, i);
    assert s.mapSem == 1 by {
      NotNegative(s);
    }
    assert Before(r.log) == s.log;
    assert Working(r, i);
    forall j: nat | j < |r.procs| && InMap(r.procs[j]) ensures Working(r, j) {
      if j != i {
        Alone(s, j, i);
      }
    }
  }

  lemma NotNegative(s: State)
    requires Mutex(s)
    ensures s.mapSem <= 1 && s.allocSem <= 1
  {
  }

  lemma ReleaseAgrees(s: State, i: nat)
    requires Mutex(s) && Agrees(s) && i < |s.procs| && s.procs[i].Unlock?
    ensures Agrees(Gone(s, i))
  {
    hide InAlloc, Contents, Linear, Mutex, Allowed, After;
    var r := Gone(s, i);
    assert Working(s, i);
    ReleaseLinear(s.log, s.procs[i].reply, s.time);
    forall j: nat | j < |r.procs| ensures !InMap(r.procs[j]) {
      Alone(s, i, j);
    }
  }

  lemma ReleaseLinear(log: seq<Entry>, reply: Reply, time: nat)
    requires log != [] && Linear(Before(log)) && Allowed(Contents(Before(log)), Last(log).op, reply)
    ensures Linear(Replied(log, reply, time))
    ensures Contents(Replied(log, reply, time)) == After(Contents(Before(log)), Last(log).op, reply)
  {
    hide Allowed, After;
    var r := Replied(log, reply, time);
    assert Before(r) == Before(log);
  }

  lemma MiddleAgrees(s: State, i: nat)
    requires Mutex(s) && Agrees(s) && i < |s.procs| && InMap(s.procs[i]) && !s.procs[i].Unlock? && Ready(s, s.procs[i])
    ensures Agrees(Gone(s, i))
  {
    hide Contents, Linear, Mutex, Inside, Gone, InMap, InAlloc;
    assert Working(s, i);
    GoneInside(s, i, Last(s.log).op, Contents(Before(s.log)));
    StepBalanced(s, Go(i));
    var r := Gone(s, i);
    Alone(s, i, i);
    forall j: nat | j < |r.procs| && InMap(r.procs[j]) ensures Working(r, j) {
      if j != i {
        Alone(s, i, j);
      }
    }
  }

  lemma OutsideAgrees(s: State, m: Move)
    requires Mutex(s) && Agrees(s) && Can(s, m) && !InMap(s.procs[m.pid]) && !InMap(Step(s, m).procs[m.pid])
    ensures Agrees(Step(s, m))
  {
    hide Contents, Linear, Mutex, Inside, Step, InMap, Can;
    OnlyOneMoves(s, m);
    OutsideQuiet(s, m);
    var r := Step(s, m);
    forall j: nat | j < |r.procs| && InMap(r.procs[j]) ensures Working(r, j) {
      assert j != m.pid && r.procs[j] == s.procs[j] && Working(s, j);
    }
  }

  lemma StepAgrees(s: State, m: Move)
    requires Mutex(s) && Agrees(s)
    ensures Agrees(Step(s, m))
  {
    hide Agrees, Mutex, InMap, Gone, Called;
    if Can(s, m) {
      OnlyOneMoves(s, m);
      var i := m.pid;
      if !InMap(s.procs[i]) && !InMap(Step(s, m).procs[i]) {
        OutsideAgrees(s, m);
      } else if s.procs[i].WaitMap? {
        AcquireAgrees(s, i);
      } else if s.procs[i].Unlock? {
        ReleaseAgrees(s, i);
      } else {
        MiddleAgrees(s, i);
      }
    }
  }

  // ------------------------------------------------------------- real time

  /** Acquisitions follow each other in log order, each after its call and before its
      return, and nobody acquires before the one before has returned. */
  predicate Timed(s: State) {
    && (forall i: nat | i < |s.procs| :: s.procs[i].WaitMap? ==> s.procs[i].called < s.time)
    && Stamped(s.log, s.time)
    && (s.mapSem == 1 ==> forall a :: 0 <= a < |s.log| ==> s.log[a].reply.Some?)
  }

  predicate Stamped(log: seq<Entry>, time: nat) {
    && (forall a :: 0 <= a < |log| ==> log[a].called < log[a].acquired < time)
    && (forall a :: 0 <= a < |log| ==> log[a].reply.Some? ==> log[a].acquired < log[a].returned < time)
    && (forall a, b :: 0 <= a < b < |log| ==> log[a].reply.Some? && log[a].returned < log[b].acquired)
  }

  lemma StampedLater(log: seq<Entry>, time: nat)
    requires Stamped(log, time)
    ensures Stamped(log, time + 1)
  {
    forall a | 0 <= a < |log| ensures log[a].called < log[a].acquired < time + 1 {
    }
    forall a | 0 <= a < |log| && log[a].reply.Some? ensures log[a].acquired < log[a].returned < time + 1 {
    }
    forall a, b | 0 <= a < b < |log| ensures log[a].reply.Some? && log[a].returned < log[b].acquired {
      assert log[b].called < log[b].acquired;
    }
  }

  lemma UntouchedTimed(s: State, r: State, i: nat)
    requires Timed(s) && r.log == s.log && r.mapSem == s.mapSem && r.time == s.time + 1 && i < |s.procs|
    requires |r.procs| == |s.procs| && r.procs == s.procs[i := r.procs[i]]
    requires r.procs[i].WaitMap? ==> r.procs[i].called <= s.time
    ensures Timed(r)
  {
    hide Stamped;
    StampedLater(s.log, s.time);
    forall j: nat | j < |r.procs| && r.procs[j].WaitMap? ensures r.procs[j].called < r.time {
      assert j != i ==> r.procs[j] == s.procs[j];
    }
  }

  lemma AcquireTimed(s: State, i: nat)
    requires Mutex(s) && Timed(s) && i < |s.procs| && s.procs[i].WaitMap? && s.mapSem > 0
    ensures Timed(Gone(s, i))
  {
    NotNegative(s);
    hide Mutex;
  }

  lemma ReleaseTimed(s: State, i: nat)
    requires Mutex(s) && Timed(s) && i < |s.procs| && s.procs[i].Unlock? && s.log != []
    ensures Timed(Gone(s, i))
  {
    Alone(s, i, i);
    hide Mutex;
    var r := Gone(s, i);
    var n := |s.log| - 1;
    assert r.log[n] == s.log[n].(reply := Some(s.procs[i].reply), returned := s.time);
    forall a | 0 <= a < n ensures r.log[a] == s.log[a] {
    }
  }

  lemma StepClock(s: State, m: Move, r: State)
    requires Can(s, m) && r == Step(s, m)
    ensures r.time == s.time + 1 && (r.procs[m.pid].WaitMap? ==> r.procs[m.pid].called <= s.time)
  {
    hide Replied, Own, InMap, InAlloc, AllocateStep, DeallocateStep;
    if m.Go? && (Allocating(s.procs[m.pid]) || Deallocating(s.procs[m.pid])) {
      MemoryQuiet(s, m.pid);
    }
  }

  lemma InsideQuiet(s: State, i: nat)
    requires i < |s.procs| && Ready(s, s.procs[i]) && InMap(s.procs[i]) && !s.procs[i].Unlock?
    ensures Gone(s, i).log == s.log && Gone(s, i).mapSem == s.mapSem
  {
    hide AllocateStep, DeallocateStep;
    if Allocating(s.procs[i]) || Deallocating(s.procs[i]) {
      MemoryQuiet(s, i);
    }
  }

  lemma StepTimed(s: State, m: Move)
    requires Mutex(s) && Agrees(s) && Timed(s)
    ensures Timed(Step(s, m))
  {
    hide Agrees, Mutex, InMap, Gone, Called, Timed;
    if Can(s, m) {
      OnlyOneMoves(s, m);
      StepClock(s, m, Step(s, m));
      var i := m.pid;
      if s.procs[i].WaitMap? && m.Go? {
        AcquireTimed(s, i);
      } else if s.procs[i].Unlock? && m.Go? {
        UnlockLogged(s, i);
        ReleaseTimed(s, i);
      } else {
        if !InMap(s.procs[i]) && !InMap(Step(s, m).procs[i]) {
          OutsideQuiet(s, m);
        } else {
          InsideQuiet(s, i);
        }
        UntouchedTimed(s, Step(s, m), i);
      }
    }
  }

  lemma UnlockLogged(s: State, i: nat)
    requires Agrees(s) && i < |s.procs| && s.procs[i].Unlock?
    ensures s.log != []
  {
    assert Working(s, i);
  }
}
