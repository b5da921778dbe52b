/** The shared-memory allocator of include/shmem/ShmemAllocator.hpp and the locked map
    of ShmemMap.hpp, run by any number of processes: each step is what one process
    does between two points at which another may run. */
module SharedMemory {
  import opened Text

  // --------------------------------------------- what each call means alone

  type Key = int
  type Value = int

  datatype Op = Insert(key: Key, value: Value) | Erase(key: Key) | At(key: Key)

  /** NoMemory is std::bad_alloc, Missing is std::out_of_range. */
  datatype Reply = Stored | NoMemory | Count(n: nat) | Found(value: Value) | Missing

  /** The replies that std::map allows; only a new key needs memory. */
  predicate Allowed(m: map<Key, Value>, op: Op, r: Reply) {
    match op
    case Insert(k, v) => r == Stored || (r == NoMemory && k !in m)
    case Erase(k) => r == Count(if k in m then 1 else 0)
    case At(k) => r == if k in m then Found(m[k]) else Missing
  }

  function After(m: map<Key, Value>, op: Op, r: Reply): map<Key, Value> {
    match op
    case Insert(k, v) => if r == Stored then m[k := v] else m
    case Erase(k) => m - {k}
    case At(k) => m
  }

  /** The free part of the mapping. */
  datatype Region = Region(start: nat, end: nat)

  function AllocatedAt(r: Region, size: nat): Option<nat> {
    if r.start + size > r.end then None else Some(r.start)
  }

  function AfterAllocate(r: Region, size: nat): Region {
    if r.start + size > r.end then r else r.(start := r.start + size)
  }

  function AfterDeallocate(r: Region, p: nat, size: nat): Region {
    if r.start == p + size then r.(start := p) else r
  }

  /** A node of the map: its value, and where the allocator put it. */
  datatype Node = Node(value: Value, addr: nat)

  function Values(nodes: map<Key, Node>): map<Key, Value> {
    map k | k in nodes :: nodes[k].value
  }

  /** What one call of the map does when nobody else runs; unit is the size of a node. */
  predicate Does(nodes: map<Key, Node>, space: Region, unit: nat, op: Op,
                 r: Reply, nodes': map<Key, Node>, space': Region)
  {
    && Allowed(Values(nodes), op, r) && Values(nodes') == After(Values(nodes), op, r)
    && match op
       case Insert(k, _) =>
         && (r == NoMemory <==> k !in nodes && AllocatedAt(space, unit) == None)
         && space' == (if k in nodes then space else AfterAllocate(space, unit))
         && (forall l | l in nodes :: l in nodes' && nodes'[l].addr == nodes[l].addr)
         && (k !in nodes && r == Stored ==> k in nodes' && nodes'[k].addr == space.start)
       case Erase(k) =>
         && nodes' == nodes - {k}
         && space' == if k in nodes then AfterDeallocate(space, nodes[k].addr, unit) else space
       case At(_) => nodes' == nodes && space' == space
  }

  // ----------------------------------------------------------- the machine

  /** Who called allocate. */
  datatype Caller = Direct | ForInsert(key: Key, value: Value)

  /** Where a process is; erasing when deallocate was called by erase. */
  datatype Pc =
    | Idle
    | WaitMap(op: Op, called: nat)
    | Look(op: Op)
    | WaitAlloc(size: nat, who: Caller)
    | ReadStart(size: nat, who: Caller)
    | Test(size: nat, res: nat, who: Caller)
    | Bump(size: nat, res: nat, who: Caller)
    | PostAlloc(got: Option<nat>, size: nat, who: Caller)
    | Link(key: Key, value: Value, node: nat)
    | WaitFree(p: nat, size: nat, erasing: bool)
    | Compare(p: nat, size: nat, erasing: bool)
    | Lower(p: nat, size: nat, erasing: bool)
    | PostFree(erasing: bool)
    | Unlock(reply: Reply)

  /** Held by a caller of allocate, Pending until its node is linked, Linked in the
      map, Freeing during deallocate, Lost when it was freed below the top. */
  datatype Owner = Held | Pending(pid: nat) | Linked | Freeing(pid: nat) | Lost

  datatype Block = Block(addr: nat, size: nat)

  /** A map operation, in the order in which the mutex was acquired. */
  datatype Entry = Entry(pid: nat, op: Op, called: nat, acquired: nat, reply: Option<Reply>, returned: nat)

  /** A finished call of the allocator, in the order of its critical sections. */
  datatype Traced = Allocate(size: nat, got: Option<nat>) | Deallocate(p: nat, size: nat)

  /** base, end and node (the size of a map node) are constants; what follows procs is
      history: the blocks of [base, start), who owns the one at each address, the map
      operations, the allocator calls and the number of steps. */
  datatype State = State(
    base: nat, end: nat, node: nat,
    mapSem: nat, allocSem: nat, start: nat, nodes: map<Key, Node>, procs: seq<Pc>,
    blocks: seq<Block>, owners: map<nat, Owner>, log: seq<Entry>, trace: seq<Traced>, time: nat)

  datatype Call = CallMap(op: Op) | CallAllocate(size: nat) | CallDeallocate(p: nat, size: nat)

  datatype Move = Begin(pid: nat, call: Call) | Go(pid: nat)

  function Initial(base: nat, end: nat, node: nat, processes: nat): State {
    State(base, end, node, 1, 1, base, map[], seq(processes, _ => Idle), [], map[], [], [], 0)
  }

  predicate InAlloc(pc: Pc) {
    pc.ReadStart? || pc.Test? || pc.Bump? || pc.PostAlloc? || pc.Compare? || pc.Lower? || pc.PostFree?
  }

  predicate InMap(pc: Pc) {
    match pc
    case Look(_) => true
    case Link(_, _, _) => true
    case Unlock(_) => true
    case WaitAlloc(_, who) => who != Direct
    case ReadStart(_, who) => who != Direct
    case Test(_, _, who) => who != Direct
    case Bump(_, _, who) => who != Direct
    case PostAlloc(_, _, who) => who != Direct
    case WaitFree(_, _, erasing) => erasing
    case Compare(_, _, erasing) => erasing
    case Lower(_, _, erasing) => erasing
    case PostFree(erasing) => erasing
    case _ => false
  }

  /** sem_wait blocks while the semaphore is 0. */
  predicate Ready(s: State, pc: Pc) {
    match pc
    case Idle => false
    case WaitMap(_, _) => s.mapSem > 0
    case WaitAlloc(_, _) => s.allocSem > 0
    case WaitFree(_, _, _) => s.allocSem > 0
    case _ => true
  }

  /** The block at p has this size and this owner. */
  predicate Own(s: State, p: nat, size: nat, owner: Owner) {
    Block(p, size) in s.blocks && p in s.owners && s.owners[p] == owner
  }

  /** Callers free only what they hold, with its size; n is at least 1. */
  predicate Proper(s: State, call: Call) {
    match call
    case CallMap(_) => true
    case CallAllocate(size) => size >= 1
    case CallDeallocate(p, size) => Own(s, p, size, Held)
  }

  predicate Can(s: State, m: Move) {
    && m.pid < |s.procs|
    && match m
       case Begin(i, call) => s.procs[i].Idle? && Proper(s, call)
       case Go(i) => Ready(s, s.procs[i])
  }

  function Tick(s: State, i: nat, pc: Pc): (r: State)
    requires i < |s.procs|
    ensures |r.procs| == |s.procs|
  {
    s.(procs := s.procs[i := pc], time := s.time + 1)
  }

  function Called(s: State, i: nat, call: Call): (r: State)
    requires i < |s.procs|
    ensures |r.procs| == |s.procs|
  {
    match call
    case CallMap(op) => Tick(s, i, WaitMap(op, s.time))
    case CallAllocate(size) => Tick(s, i, WaitAlloc(size, Direct))
    case CallDeallocate(p, size) => Tick(s, i, WaitFree(p, size, false)).(owners := s.owners[p := Freeing(i)])
  }

  /** map_->insert_or_assign, erase and at, up to a call of the allocator. */
  function Looked(s: State, i: nat, op: Op): (r: State)
    requires i < |s.procs|
    ensures |r.procs| == |s.procs|
  {
    match op
    case Insert(k, v) =>
      if k in s.nodes then Tick(s, i, Unlock(Stored)).(nodes := s.nodes[k := s.nodes[k].(value := v)])
      else Tick(s, i, WaitAlloc(s.node, ForInsert(k, v)))
    case Erase(k) =>
      if k in s.nodes
      then Tick(s, i, WaitFree(s.nodes[k].addr, s.node, true))
        .(nodes := s.nodes - {k}, owners := s.owners[s.nodes[k].addr := Freeing(i)])
      else Tick(s, i, Unlock(Count(0)))
    case At(k) => Tick(s, i, Unlock(if k in s.nodes then Found(s.nodes[k].value) else Missing))
  }

  /** Where allocate returns to, or throws to. */
  function Returned(got: Option<nat>, who: Caller): Pc {
    match who
    case ForInsert(k, v) => (match got case Some(p) => Link(k, v, p) case None => Unlock(NoMemory))
    case Direct => Idle
  }

  function Replied(log: seq<Entry>, r: Reply, time: nat): seq<Entry> {
    if log == [] then log else log[..|log| - 1] + [log[|log| - 1].(reply := Some(r), returned := time)]
  }

  function NewOwner(i: nat, who: Caller): Owner {
    if who == Direct then Held else Pending(i)
  }

  predicate Allocating(pc: Pc) {
    pc.WaitAlloc? || pc.ReadStart? || pc.Test? || pc.Bump? || pc.PostAlloc?
  }

  predicate Deallocating(pc: Pc) {
    pc.WaitFree? || pc.Compare? || pc.Lower? || pc.PostFree?
  }

  /** The next step inside allocate. */
  function AllocateStep(s: State, i: nat): (r: State)
    requires i < |s.procs| && Allocating(s.procs[i])
    ensures |r.procs| == |s.procs|
  {
    match s.procs[i]
    case WaitAlloc(size, who) =>
      if s.allocSem == 0 then s else Tick(s, i, ReadStart(size, who)).(allocSem := s.allocSem - 1)
    case ReadStart(size, who) => Tick(s, i, Test(size, s.start, who))
    case Test(size, res, who) =>
      if res + size > s.end then Tick(s, i, PostAlloc(None, size, who)).(trace := s.trace + [Allocate(size, None)])
      else Tick(s, i, Bump(size, res, who))
    case Bump(size, res, who) =>
      Tick(s, i, PostAlloc(Some(res), size, who))
        .(start := s.start + size, blocks := s.blocks + [Block(res, size)],
          owners := s.owners[res := NewOwner(i, who)], trace := s.trace + [Allocate(size, Some(res))])
    case PostAlloc(got, size, who) => Tick(s, i, Returned(got, who)).(allocSem := s.allocSem + 1)
  }

  /** The next step inside deallocate. */
  function DeallocateStep(s: State, i: nat): (r: State)
    requires i < |s.procs| && Deallocating(s.procs[i])
    ensures |r.procs| == |s.procs|
  {
    match s.procs[i]
    case WaitFree(p, size, erasing) =>
      if s.allocSem == 0 then s else Tick(s, i, Compare(p, size, erasing)).(allocSem := s.allocSem - 1)
    case Compare(p, size, erasing) =>
      if s.start == p + size then Tick(s, i, Lower(p, size, erasing))
      else Tick(s, i, PostFree(erasing)).(owners := s.owners[p := Lost], trace := s.trace + [Deallocate(p, size)])
    case Lower(p, size, erasing) =>
      Tick(s, i, PostFree(erasing))
        .(start := if s.start < size then 0 else s.start - size,
          blocks := if s.blocks == [] then [] else s.blocks[..|s.blocks| - 1],
          owners := s.owners - {p}, trace := s.trace + [Deallocate(p, size)])
    case PostFree(erasing) => Tick(s, i, if erasing then Unlock(Count(1)) else Idle).(allocSem := s.allocSem + 1)
  }

  function Gone(s: State, i: nat): (r: State)
    requires i < |s.procs|
    ensures |r.procs| == |s.procs|
  {
    var pc := s.procs[i];
    if Allocating(pc) then AllocateStep(s, i)
    else if Deallocating(pc) then DeallocateStep(s, i)
    else
      match pc
      case Idle => s
      case WaitMap(op, called) =>
        if s.mapSem == 0 then s
        else Tick(s, i, Look(op)).(mapSem := s.mapSem - 1, log := s.log + [Entry(i, op, called, s.time, None, 0)])
      case Look(op) => Looked(s, i, op)
      case Link(k, v, p) =>
        Tick(s, i, Unlock(Stored)).(nodes := s.nodes[k := Node(v, p)], owners := s.owners[p := Linked])
      case Unlock(r) => Tick(s, i, Idle).(mapSem := s.mapSem + 1, log := Replied(s.log, r, s.time))
  }

  /** A step of any process; one that cannot happen leaves everything as it was. */
  function Step(s: State, m: Move): (r: State)
    ensures |r.procs| == |s.procs|
  {
    if !Can(s, m) then s
    else match m case Begin(i, call) => Called(s, i, call) case Go(i) => Gone(s, i)
  }

  function Run(s: State, moves: seq<Move>): State
    decreases |moves|
  {
    if moves == [] then s else Run(Step(s, moves[0]), moves[1..])
  }
}
