/** Whole runs of the shared memory: safety of the allocator, what its memory is used
    for, linearizability of the map and freedom from deadlock. */
module SharedRuns {
  import opened Text
  import opened SharedMemory
  import opened AllocatorLaws
  import opened MapLaws

  // ------------------------------------- the allocator as a sequential object

  function Next(r: Region, e: Traced): Region {
    match e
    case Allocate(size, _) => AfterAllocate(r, size)
    case Deallocate(p, size) => AfterDeallocate(r, p, size)
  }

  /** The bytes freed while another block was on top. */
  function LostBy(r: Region, e: Traced): nat {
    match e
    case Allocate(_, _) => 0
    case Deallocate(p, size) => if r.start == p + size then 0 else size
  }

  predicate Answered(r: Region, e: Traced) {
    e.Allocate? ==> e.got == AllocatedAt(r, e.size)
  }

  function Final(r: Region, trace: seq<Traced>): Region
    decreases |trace|
  {
    if trace == [] then r else Next(Final(r, trace[..|trace| - 1]), trace[|trace| - 1])
  }

  /** Each allocate returned what it returns to a single caller. */
  predicate Truthful(r: Region, trace: seq<Traced>)
    decreases |trace|
  {
    trace == [] ||
    (Truthful(r, trace[..|trace| - 1]) && Answered(Final(r, trace[..|trace| - 1]), trace[|trace| - 1]))
  }

  function LostBytes(r: Region, trace: seq<Traced>): nat
    decreases |trace|
  {
    if trace == [] then 0
    else LostBytes(r, trace[..|trace| - 1]) + LostBy(Final(r, trace[..|trace| - 1]), trace[|trace| - 1])
  }

  lemma TraceOne(r: Region, trace: seq<Traced>, e: Traced)
    ensures Final(r, trace + [e]) == Next(Final(r, trace), e)
    ensures Truthful(r, trace + [e]) <==> Truthful(r, trace) && Answered(Final(r, trace), e)
    ensures LostBytes(r, trace + [e]) == LostBytes(r, trace) + LostBy(Final(r, trace), e)
  {
    hide Next, LostBy, Answered;
    assert (trace + [e])[..|trace|] == trace;
  }

  /** The stack after a call, or None when the freed block was not the newest. */
  function Stacked(stack: seq<Block>, e: Traced): Option<seq<Block>> {
    match e
    case Allocate(size, got) => Some(if got.Some? then stack + [Block(got.value, size)] else stack)
    case Deallocate(p, size) =>
      if stack != [] && stack[|stack| - 1] == Block(p, size) then Some(stack[..|stack| - 1]) else None
  }

  /** The blocks in use when every free is of the newest block in use, or None. */
  function Stack(trace: seq<Traced>): Option<seq<Block>>
    decreases |trace|
  {
    if trace == [] then Some([])
    else
      match Stack(trace[..|trace| - 1])
      case None => None
      case Some(stack) => Stacked(stack, trace[|trace| - 1])
  }

  /** Frees in reverse order of allocation: the region is exactly the stack, and once
      everything is freed, start is where it was and no byte is lost. */
  lemma {:induction false} ReverseOrderIsStack(r: Region, trace: seq<Traced>)
    requires Truthful(r, trace) && Stack(trace).Some?
    ensures Adjacent(Stack(trace).value, r.start, Final(r, trace).start) && LostBytes(r, trace) == 0
    ensures Stack(trace).value == [] ==> Final(r, trace) == r
    decreases |trace|
  {
    hide Adjacent, Answered, Next, LostBy, Stacked;
    FinalEnd(r, trace);
    if trace != [] {
      var init := trace[..|trace| - 1];
      ReverseOrderIsStack(r, init);
      StackStep(Stack(init).value, r.start, Final(r, init), trace[|trace| - 1]);
    } else {
      assert Adjacent([], r.start, r.start) by {
        NoBlocks(r.start);
      }
    }
    if Stack(trace).value == [] {
      Emptied(r.start, Final(r, trace).start);
    }
  }

  lemma NoBlocks(start: nat)
    ensures Adjacent([], start, start)
  {
  }

  lemma Emptied(base: nat, start: nat)
    requires Adjacent([], base, start)
    ensures base == start
  {
  }

  lemma {:induction false} FinalEnd(r: Region, trace: seq<Traced>)
    ensures Final(r, trace).end == r.end
    decreases |trace|
  {
    if trace != [] {
      FinalEnd(r, trace[..|trace| - 1]);
    }
  }

  lemma StackStep(stack: seq<Block>, base: nat, f: Region, e: Traced)
    requires Adjacent(stack, base, f.start) && Answered(f, e) && Stacked(stack, e).Some?
    ensures Adjacent(Stacked(stack, e).value, base, Next(f, e).start) && LostBy(f, e) == 0
  {
    if e.Deallocate? {
      AdjacentDrop(stack, base, f.start);
    } else if e.got.Some? {
      AdjacentAppend(stack, base, f.start, e.size);
    }
  }

  // ------------------------------------------------------- accounted bytes

  function Bytes(blocks: seq<Block>, at: set<nat>): nat
    decreases |blocks|
  {
    if blocks == [] then 0
    else
      Bytes(blocks[..|blocks| - 1], at) +
      if blocks[|blocks| - 1].addr in at then blocks[|blocks| - 1].size else 0
  }

  function LostAt(s: State): set<nat> {
    set a | a in s.owners && s.owners[a].Lost?
  }

  function LiveAt(s: State): set<nat> {
    set a | a in s.owners && !s.owners[a].Lost?
  }

  lemma {:induction false} BytesAll(blocks: seq<Block>, base: nat, start: nat, at: set<nat>)
    requires Adjacent(blocks, base, start) && forall b | b in blocks :: b.addr in at
    ensures base <= start && Bytes(blocks, at) == start - base
    decreases |blocks|
  {
    if blocks != [] {
      AdjacentDrop(blocks, base, start);
      BytesAll(blocks[..|blocks| - 1], base, blocks[|blocks| - 1].addr, at);
    }
  }

  lemma {:induction false} BytesSplit(blocks: seq<Block>, a: set<nat>, b: set<nat>)
    requires a !! b
    ensures Bytes(blocks, a + b) == Bytes(blocks, a) + Bytes(blocks, b)
    decreases |blocks|
  {
    if blocks != [] {
      BytesSplit(blocks[..|blocks| - 1], a, b);
    }
  }

  lemma {:induction false} BytesNone(blocks: seq<Block>, at: set<nat>)
    requires forall b | b in blocks :: b.addr !in at
    ensures Bytes(blocks, at) == 0
    decreases |blocks|
  {
    if blocks != [] {
      BytesNone(blocks[..|blocks| - 1], at);
    }
  }

  lemma {:induction false} BytesSame(blocks: seq<Block>, a: set<nat>, b: set<nat>)
    requires forall x | x in blocks :: x.addr in a <==> x.addr in b
    ensures Bytes(blocks, a) == Bytes(blocks, b)
    decreases |blocks|
  {
    if blocks != [] {
      BytesSame(blocks[..|blocks| - 1], a, b);
    }
  }

  /** One block's own address weighs its size. */
  lemma {:induction false} BytesOne(blocks: seq<Block>, base: nat, start: nat, p: nat, size: nat)
    requires Tiled(blocks, base, start) && Block(p, size) in blocks
    ensures Bytes(blocks, {p}) == size
    decreases |blocks|
  {
    hide Adjacent;
    var init, last := blocks[..|blocks| - 1], blocks[|blocks| - 1];
    AdjacentDrop(blocks, base, start);
    BlocksApart(blocks, base, start, last, Block(p, size));
    if last == Block(p, size) {
      forall b | b in init ensures b.addr != p {
        BlocksApart(init, base, last.addr, b, b);
      }
      BytesNone(init, {p});
    } else {
      BytesOne(init, base, last.addr, p, size);
    }
  }

  // ------------------------------------------------------ accounts of a run

  /** The allocator's calls, in the order of their critical sections, are those of a
      sequential allocator, and the lost blocks are the bytes it lost. */
  predicate Accounts(s: State) {
    var r := Region(s.base, s.end);
    && Truthful(r, s.trace) && Final(r, s.trace) == Region(s.start, s.end)
    && LostBytes(r, s.trace) == Bytes(s.blocks, LostAt(s))
  }

  predicate Memory(pc: Pc) {
    pc.Test? || pc.Bump? || pc.Compare? || pc.Lower?
  }

  lemma TestAccounts(s: State, i: nat)
    requires Sound(s) && Accounts(s) && i < |s.procs| && s.procs[i].Test?
    ensures Accounts(Gone(s, i))
  {
    hide Truthful, Final, LostBytes, Bytes, Sound;
    SoundPlaced(s, i);
    TraceOne(Region(s.base, s.end), s.trace, Allocate(s.procs[i].size, None));
    assert LostAt(Gone(s, i)) == LostAt(s);
  }

  lemma BumpAccounts(s: State, i: nat)
    requires Sound(s) && Accounts(s) && i < |s.procs| && s.procs[i].Bump?
    ensures Accounts(Gone(s, i))
  {
    hide Truthful, Final, LostBytes, Sound, Tiled;
    SoundPlaced(s, i);
    SoundSeats(s);
    var r := Gone(s, i);
    TraceOne(Region(s.base, s.end), s.trace, Allocate(s.procs[i].size, Some(s.start)));
    assert r.blocks[..|s.blocks|] == s.blocks;
    forall b | b in s.blocks ensures b.addr in LostAt(r) <==> b.addr in LostAt(s) {
      BlocksApart(s.blocks, s.base, s.start, b, b);
    }
    BytesSame(s.blocks, LostAt(r), LostAt(s));
  }

  lemma LoseAccounts(s: State, i: nat)
    requires Sound(s) && Accounts(s) && i < |s.procs| && s.procs[i].Compare?
    requires s.start != s.procs[i].p + s.procs[i].size
    ensures Accounts(Gone(s, i))
  {
    hide Truthful, Final, LostBytes, Sound, Tiled, Bytes;
    SoundPlaced(s, i);
    SoundSeats(s);
    var r, p, size := Gone(s, i), s.procs[i].p, s.procs[i].size;
    TraceOne(Region(s.base, s.end), s.trace, Deallocate(p, size));
    BytesOne(s.blocks, s.base, s.start, p, size);
    BytesSplit(s.blocks, LostAt(s), {p});
    assert LostAt(r) == LostAt(s) + {p};
  }

  lemma LowerAccounts(s: State, i: nat)
    requires Sound(s) && Accounts(s) && i < |s.procs| && s.procs[i].Lower?
    ensures Accounts(Gone(s, i))
  {
    hide Truthful, Final, LostBytes, Sound, Tiled;
    SoundPlaced(s, i);
    SoundSeats(s);
    var r, p, size := Gone(s, i), s.procs[i].p, s.procs[i].size;
    TraceOne(Region(s.base, s.end), s.trace, Deallocate(p, size));
    TiledDrop(s.blocks, s.base, s.start, p, size);
    assert p !in LostAt(s) && LostAt(r) == LostAt(s);
  }

  /** Every other step leaves start, the blocks, the calls and the lost bytes alone. */
  predicate SameMemory(s: State, r: State) {
    && r.base == s.base && r.end == s.end && r.start == s.start && r.blocks == s.blocks && r.trace == s.trace
    && LostAt(r) == LostAt(s)
  }

  lemma LookedMemory(s: State, i: nat, op: Op)
    requires Sound(s) && i < |s.procs| && s.procs[i] == Look(op)
    ensures SameMemory(s, Looked(s, i, op))
  {
    hide Sound, Tiled;
    SoundSeats(s);
    if op.Erase? && op.key in s.nodes {
      assert Own(s, s.nodes[op.key].addr, s.node, Linked);
    }
  }

  lemma GoneMemory(s: State, i: nat)
    requires Sound(s) && i < |s.procs| && Ready(s, s.procs[i])
    requires !Memory(s.procs[i]) || (s.procs[i].Compare? && s.start == s.procs[i].p + s.procs[i].size)
      || (s.procs[i].Test? && s.procs[i].res + s.procs[i].size <= s.end)
    ensures SameMemory(s, Gone(s, i))
  {
    hide Sound, Looked, Replied, Tiled;
    SoundPlaced(s, i);
    if s.procs[i].Look? {
      LookedMemory(s, i, s.procs[i].op);
    }
  }

  lemma SameAccounts(s: State, r: State)
    requires Accounts(s) && SameMemory(s, r)
    ensures Accounts(r)
  {
  }

  lemma GoneAccounts(s: State, i: nat)
    requires Sound(s) && Accounts(s) && i < |s.procs| && Ready(s, s.procs[i])
    ensures Accounts(Gone(s, i))
  {
    hide Accounts, Sound, Gone, Ready, SameMemory;
    var pc := s.procs[i];
    if pc.Bump? {
      BumpAccounts(s, i);
    } else if pc.Lower? {
      LowerAccounts(s, i);
    } else if pc.Compare? && s.start != pc.p + pc.size {
      LoseAccounts(s, i);
    } else if pc.Test? && pc.res + pc.size > s.end {
      TestAccounts(s, i);
    } else {
      GoneMemory(s, i);
      SameAccounts(s, Gone(s, i));
    }
  }

  lemma CalledMemory(s: State, i: nat, call: Call)
    requires i < |s.procs| && Proper(s, call)
    ensures SameMemory(s, Called(s, i, call))
  {
  }

  lemma StepAccounts(s: State, m: Move)
    requires Sound(s) && Accounts(s)
    ensures Accounts(Step(s, m))
  {
    hide Accounts, Sound, Gone, Called, Proper, Ready, SameMemory;
    if Can(s, m) {
      match m
      case Go(i) => GoneAccounts(s, i);
      case Begin(i, call) =>
        CalledMemory(s, i, call);
        SameAccounts(s, Called(s, i, call));
    }
  }

  // ----------------------------------------------------------- what holds

  /** Everything that every step keeps. */
  predicate Holds(s: State) {
    Mutex(s) && Sound(s) && Agrees(s) && Timed(s) && Accounts(s)
  }

  lemma StepHolds(s: State, m: Move)
    requires Holds(s)
    ensures Holds(Step(s, m))
  {
    hide Mutex, Sound, Agrees, Timed, Accounts, Step;
    StepSound(s, m);
    StepAgrees(s, m);
    StepTimed(s, m);
    StepAccounts(s, m);
  }

  lemma {:induction false} RunHolds(s: State, moves: seq<Move>)
    requires Holds(s)
    ensures Holds(Run(s, moves))
    decreases |moves|
  {
    hide Holds, Step;
    if moves != [] {
      StepHolds(s, moves[0]);
      RunHolds(Step(s, moves[0]), moves[1..]);
    }
  }

  lemma InitialHolds(base: nat, end: nat, node: nat, n: nat)
    requires base <= end && node >= 1
    ensures Holds(Initial(base, end, node, n))
  {
    InitialSound(base, end, node, n);
    hide Mutex, Sound;
    assert Values(map[]) == map[];
  }

  // -------------------------------------------------------- main theorems

  /** Safety of the allocator: over any run one process at a time is in either
      critical section; the blocks tile the region up to start exactly; so live blocks
      are apart, in bounds and below start, and every node of the map has its own. */
  lemma AllocatorSafety(base: nat, end: nat, node: nat, n: nat, moves: seq<Move>)
    requires base <= end && node >= 1
    ensures var s := Run(Initial(base, end, node, n), moves);
            && s.mapSem + |MapHolders(s.procs)| == 1 && s.allocSem + |AllocHolders(s.procs)| == 1
            && Tiled(s.blocks, s.base, s.start) && s.start <= s.end
            && (forall a, b | a in s.blocks && b in s.blocks && a != b ::
                  a.addr + a.size <= b.addr || b.addr + b.size <= a.addr)
            && (forall a | a in s.blocks :: s.base <= a.addr && a.addr + a.size <= s.start && a.addr in s.owners)
            && (forall k | k in s.nodes :: Own(s, s.nodes[k].addr, s.node, Linked))
            && (forall k, l | k in s.nodes && l in s.nodes && k != l :: s.nodes[k].addr != s.nodes[l].addr)
  {
    hide Run, Agrees, Timed, Accounts, Tiled, Placed;
    InitialHolds(base, end, node, n);
    RunHolds(Initial(base, end, node, n), moves);
    var s := Run(Initial(base, end, node, n), moves);
    assert Sound(s) && Mutex(s);
    forall a, b | a in s.blocks && b in s.blocks
      ensures a == b || a.addr + a.size <= b.addr || b.addr + b.size <= a.addr
      ensures s.base <= a.addr && a.addr + a.size <= s.start && a.addr in s.owners
    {
      BlocksApart(s.blocks, s.base, s.start, a, b);
      assert Accounted(s, a);
    }
  }

  /** The operations answered so far. */
  function Completed(s: State): seq<Entry> {
    if s.log != [] && Last(s.log).reply.None? then Before(s.log) else s.log
  }

  /** One operation returned before the other was called. */
  predicate Precedes(a: Entry, b: Entry) {
    a.reply.Some? && a.returned < b.called
  }

  /** Linearizability: over any run the answered map operations have the replies of a
      sequential map to which they are applied in the order of mutex acquisition, and
      whenever the mutex is free the shared map is that map. An operation that
      returned before another was called comes before it. */
  lemma MapIsLinearizable(base: nat, end: nat, node: nat, n: nat, moves: seq<Move>)
    requires base <= end && node >= 1
    ensures var s := Run(Initial(base, end, node, n), moves);
            && Linear(Completed(s))
            && (s.mapSem == 1 ==> Completed(s) == s.log && Values(s.nodes) == Contents(s.log))
            && (forall a :: 0 <= a < |s.log| ==> s.log[a].called < s.log[a].acquired)
            && (forall a: nat, b: nat | a < |s.log| && b < |s.log| && Precedes(s.log[a], s.log[b]) :: a < b)
  {
    hide Run, Mutex, Sound, Accounts, Linear, Contents, Values, Inside;
    InitialHolds(base, end, node, n);
    RunHolds(Initial(base, end, node, n), moves);
    var s := Run(Initial(base, end, node, n), moves);
    AnsweredOrWorking(s);
    TimedOrder(s);
  }

  lemma TimedOrder(s: State)
    requires Timed(s)
    ensures forall a: nat, b: nat | a < |s.log| && b < |s.log| && Precedes(s.log[a], s.log[b]) :: a < b
  {
  }

  lemma AnsweredOrWorking(s: State)
    requires Holds(s)
    ensures Linear(Completed(s)) && (s.mapSem == 1 ==> Completed(s) == s.log && Values(s.nodes) == Contents(s.log))
  {
    hide Sound, Accounts, Linear, Contents, Values, Inside, InMap, InAlloc;
    if s.mapSem == 1 {
      assert Timed(s) && Linear(s.log);
    } else {
      var i := Holder(s);
      assert Working(s, i);
    }
  }

  lemma Holder(s: State) returns (i: nat)
    requires Mutex(s) && s.mapSem != 1
    ensures i < |s.procs| && InMap(s.procs[i])
  {
    hide InMap, InAlloc;
    assert MapHolders(s.procs) != {};
    i :| i in MapHolders(s.procs);
  }

  lemma {:induction false} LinearPrefix(log: seq<Entry>, n: nat)
    requires Linear(log) && n <= |log|
    ensures Linear(log[..n])
    decreases |log|
  {
    hide Allowed, Contents;
    if n < |log| {
      LinearPrefix(Before(log), n);
      assert Before(log)[..n] == log[..n];
    } else {
      assert log[..n] == log;
    }
  }

  /** Over any run, an operation that fails with bad_alloc was an insertion of a key that
      the map did not have, and leaves the contents as they were. */
  lemma NoMemoryChangesNothing(base: nat, end: nat, node: nat, n: nat, moves: seq<Move>, a: nat)
    requires base <= end && node >= 1
    requires var log := Run(Initial(base, end, node, n), moves).log; a < |log| && log[a].reply == Some(NoMemory)
    ensures var log := Run(Initial(base, end, node, n), moves).log;
            log[a].op.Insert? && log[a].op.key !in Contents(log[..a]) && Contents(log[..a + 1]) == Contents(log[..a])
  {
    hide Run, Values;
    MapIsLinearizable(base, end, node, n, moves);
    var s := Run(Initial(base, end, node, n), moves);
    LinearPrefix(Completed(s), a + 1);
    assert Completed(s)[..a + 1] == s.log[..a + 1];
    assert Before(s.log[..a + 1]) == s.log[..a];
  }

  /** Conservation over any run: what lies below start is what is live and what was
      freed while not on top; and each call of allocate was answered as if alone. */
  lemma BytesConserved(base: nat, end: nat, node: nat, n: nat, moves: seq<Move>)
    requires base <= end && node >= 1
    ensures var s := Run(Initial(base, end, node, n), moves);
            var r := Region(s.base, s.end);
            && s.start == s.base + Bytes(s.blocks, LiveAt(s)) + LostBytes(r, s.trace)
            && Truthful(r, s.trace) && Final(r, s.trace) == Region(s.start, s.end)
  {
    hide Run, Mutex, Agrees, Timed, Truthful, Final, LostBytes, Placed, Seats, Adjacent;
    InitialHolds(base, end, node, n);
    RunHolds(Initial(base, end, node, n), moves);
    var s := Run(Initial(base, end, node, n), moves);
    assert Sound(s);
    var all := LiveAt(s) + LostAt(s);
    forall b | b in s.blocks ensures b.addr in all {
      assert Accounted(s, b);
    }
    BytesAll(s.blocks, s.base, s.start, all);
    BytesSplit(s.blocks, LiveAt(s), LostAt(s));
  }

  /** A run whose frees come in reverse order of allocation uses the region as a
      stack, whatever the interleaving, and leaves start where it was. */
  lemma ReverseOrderRun(base: nat, end: nat, node: nat, n: nat, moves: seq<Move>)
    requires base <= end && node >= 1
    requires Stack(Run(Initial(base, end, node, n), moves).trace) == Some([])
    ensures Run(Initial(base, end, node, n), moves).start == Run(Initial(base, end, node, n), moves).base
  {
    hide Run, LostBytes, Stack, LiveAt, Truthful, Final;
    BytesConserved(base, end, node, n, moves);
    var s := Run(Initial(base, end, node, n), moves);
    ReverseOrderIsStack(Region(s.base, s.end), s.trace);
  }

  // ---------------------------------------------------------------- progress

  predicate AtRest(s: State) {
    forall i: nat | i < |s.procs| :: s.procs[i].Idle?
  }

  function Addresses(nodes: map<Key, Node>): set<nat> {
    set k | k in nodes :: nodes[k].addr
  }

  /** Each node has a block of its own. */
  predicate Homes(blocks: seq<Block>, nodes: map<Key, Node>, node: nat) {
    && (forall k | k in nodes :: Block(nodes[k].addr, node) in blocks)
    && (forall k, l | k in nodes && l in nodes && k != l :: nodes[k].addr != nodes[l].addr)
  }

  lemma NoHomes(blocks: seq<Block>, nodes: map<Key, Node>)
    requires |nodes| == 0
    ensures Bytes(blocks, Addresses(nodes)) == 0
  {
    BytesNone(blocks, Addresses(nodes));
  }

  lemma OneHome(blocks: seq<Block>, nodes: map<Key, Node>, node: nat) returns (k: Key)
    requires |nodes| > 0 && Homes(blocks, nodes, node)
    ensures k in nodes && Homes(blocks, nodes - {k}, node) && Block(nodes[k].addr, node) in blocks
    ensures Addresses(nodes - {k}) !! {nodes[k].addr}
  {
    assert |nodes.Keys| == |nodes|;
    assert (forall k :: k !in nodes) ==> nodes.Keys == {};
    k :| k in nodes;
  }

  lemma {:induction false} NodeBytes(blocks: seq<Block>, base: nat, start: nat, nodes: map<Key, Node>, node: nat)
    requires Tiled(blocks, base, start) && Homes(blocks, nodes, node)
    ensures Bytes(blocks, Addresses(nodes)) == node * |nodes|
    decreases |nodes|
  {
    hide Tiled, Bytes, Addresses, Homes;
    if |nodes| == 0 {
      NoHomes(blocks, nodes);
    } else {
      var k := OneHome(blocks, nodes, node);
      AddressesOf(nodes, k);
      NodeBytes(blocks, base, start, nodes - {k}, node);
      BytesOne(blocks, base, start, nodes[k].addr, node);
      BytesSplit(blocks, Addresses(nodes - {k}), {nodes[k].addr});
    }
  }

  lemma AddressesOf(nodes: map<Key, Node>, k: Key)
    requires k in nodes
    ensures Addresses(nodes) == Addresses(nodes - {k}) + {nodes[k].addr} && |nodes - {k}| == |nodes| - 1
  {
    forall a | a in Addresses(nodes) ensures a in Addresses(nodes - {k}) + {nodes[k].addr} {
      var l :| l in nodes && nodes[l].addr == a;
      assert l != k ==> l in nodes - {k};
    }
    assert (nodes - {k}).Keys == nodes.Keys - {k};
    assert |nodes.Keys - {k}| == |nodes.Keys| - 1;
  }

  function HeldAt(s: State): set<nat> {
    set a | a in s.owners && s.owners[a].Held?
  }

  /** Between calls nothing is locked or half done, and the memory below start is one
      node per key, what callers hold, and what was lost. */
  lemma Quiescent(base: nat, end: nat, node: nat, n: nat, moves: seq<Move>)
    requires base <= end && node >= 1 && AtRest(Run(Initial(base, end, node, n), moves))
    ensures var s := Run(Initial(base, end, node, n), moves);
            && s.mapSem == 1 && s.allocSem == 1
            && s.start == s.base + s.node * |s.nodes| + Bytes(s.blocks, HeldAt(s))
                        + LostBytes(Region(s.base, s.end), s.trace)
  {
    hide Run, Agrees, Timed, Truthful, Final, LostBytes, Placed, Bytes, AtRest, LiveAt, Adjacent;
    BytesConserved(base, end, node, n, moves);
    InitialHolds(base, end, node, n);
    RunHolds(Initial(base, end, node, n), moves);
    var s := Run(Initial(base, end, node, n), moves);
    RestLive(s);
    RestFree(s);
  }

  lemma RestFree(s: State)
    requires Mutex(s) && AtRest(s)
    ensures s.mapSem == 1 && s.allocSem == 1
  {
    assert MapHolders(s.procs) == {} && AllocHolders(s.procs) == {};
  }

  lemma RestLive(s: State)
    requires Sound(s) && AtRest(s)
    ensures Bytes(s.blocks, LiveAt(s)) == s.node * |s.nodes| + Bytes(s.blocks, HeldAt(s))
  {
    hide Tiled, Placed, Bytes;
    forall k | k in s.nodes ensures Block(s.nodes[k].addr, s.node) in s.blocks && s.owners[s.nodes[k].addr] == Linked {
      assert Own(s, s.nodes[k].addr, s.node, Linked);
    }
    NodeBytes(s.blocks, s.base, s.start, s.nodes, s.node);
    var nodes := Addresses(s.nodes);
    BytesSplit(s.blocks, nodes, HeldAt(s));
    forall b | b in s.blocks ensures b.addr in LiveAt(s) <==> b.addr in nodes + HeldAt(s) {
      assert Accounted(s, b);
    }
    BytesSame(s.blocks, LiveAt(s), nodes + HeldAt(s));
  }

  /** Freedom from deadlock: as long as some call has not returned, some process can
      step. */
  lemma NoDeadlock(s: State)
    requires Mutex(s) && !AtRest(s)
    ensures exists j: nat :: j < |s.procs| && Can(s, Go(j))
  {
    hide InMap, InAlloc, Mutex;
    if s.allocSem == 0 {
      var i := AllocHolder(s);
      HolderReady(s, i);
    } else if s.mapSem == 0 {
      NotNegative(s);
      var i := Holder(s);
      HolderReady(s, i);
    } else {
      var i: nat :| i < |s.procs| && !s.procs[i].Idle?;
      assert Can(s, Go(i));
    }
  }

  lemma AllocHolder(s: State) returns (i: nat)
    requires Mutex(s) && s.allocSem == 0
    ensures i < |s.procs| && InAlloc(s.procs[i])
  {
    hide InMap, InAlloc;
    assert AllocHolders(s.procs) != {};
    i :| i in AllocHolders(s.procs);
  }

  /** Whoever is inside the allocator can go on; so can the holder of the map's mutex
      when nobody is. */
  lemma HolderReady(s: State, i: nat)
    requires i < |s.procs| && (InAlloc(s.procs[i]) || (InMap(s.procs[i]) && s.allocSem > 0))
    ensures Can(s, Go(i))
  {
  }

  /** An upper bound of the steps a process still has to take. */
  function Rank(pc: Pc): nat {
    match pc
    case Idle => 0
    case WaitMap(_, _) => 9
    case Look(_) => 8
    case WaitAlloc(_, _) => 7
    case ReadStart(_, _) => 6
    case Test(_, _, _) => 5
    case Bump(_, _, _) => 4
    case PostAlloc(_, _, _) => 3
    case Link(_, _, _) => 2
    case WaitFree(_, _, _) => 5
    case Compare(_, _, _) => 4
    case Lower(_, _, _) => 3
    case PostFree(_) => 2
    case Unlock(_) => 1
  }

  function Work(procs: seq<Pc>): nat
    decreases |procs|
  {
    if procs == [] then 0 else Work(procs[..|procs| - 1]) + Rank(procs[|procs| - 1])
  }

  lemma {:induction false} WorkUpdate(procs: seq<Pc>, i: nat, pc: Pc)
    requires i < |procs|
    ensures Work(procs[i := pc]) + Rank(procs[i]) == Work(procs) + Rank(pc)
    decreases |procs|
  {
    hide Rank;
    var n := |procs| - 1;
    if i < n {
      WorkUpdate(procs[..n], i, pc);
      assert procs[i := pc][..n] == procs[..n][i := pc];
    } else {
      assert procs[i := pc][..n] == procs[..n];
    }
  }

  lemma AllocateRank(s: State, i: nat)
    requires i < |s.procs| && Allocating(s.procs[i]) && Ready(s, s.procs[i])
    ensures Rank(AllocateStep(s, i).procs[i]) < Rank(s.procs[i])
  {
    hide NewOwner;
  }

  lemma DeallocateRank(s: State, i: nat)
    requires i < |s.procs| && Deallocating(s.procs[i]) && Ready(s, s.procs[i])
    ensures Rank(DeallocateStep(s, i).procs[i]) < Rank(s.procs[i])
  {
  }

  lemma StepRank(s: State, i: nat)
    requires Can(s, Go(i))
    ensures Rank(Gone(s, i).procs[i]) < Rank(s.procs[i])
  {
    hide InMap, InAlloc, Replied, Own, AllocateStep, DeallocateStep;
    if Allocating(s.procs[i]) {
      AllocateRank(s, i);
    } else if Deallocating(s.procs[i]) {
      DeallocateRank(s, i);
    }
  }

  lemma StepWork(s: State, i: nat)
    requires Can(s, Go(i))
    ensures Work(Step(s, Go(i)).procs) < Work(s.procs)
  {
    hide Gone, Rank, Work, Balanced;
    StepRank(s, i);
    StepBalanced(s, Go(i));
    BalancedProcs(s, Step(s, Go(i)), i);
    WorkUpdate(s.procs, i, Step(s, Go(i)).procs[i]);
  }

  lemma BalancedProcs(s: State, r: State, i: nat)
    requires Balanced(s, r, i)
    ensures i < |s.procs| && |r.procs| == |s.procs| && r.procs == s.procs[i := r.procs[i]]
  {
  }

  /** No new calls, and no step is attempted that cannot happen. */
  predicate Finishing(s: State, moves: seq<Move>)
    decreases |moves|
  {
    moves == [] || (moves[0].Go? && Can(s, moves[0]) && Finishing(Step(s, moves[0]), moves[1..]))
  }

  /** However the scheduler chooses, the calls in progress need at most Work steps, and
      when no process can step any more, all have returned and nothing is locked. */
  lemma {:induction false} EveryCallReturns(s: State, moves: seq<Move>)
    requires Holds(s) && Finishing(s, moves)
    ensures |moves| + Work(Run(s, moves).procs) <= Work(s.procs)
    ensures (forall i: nat :: !Can(Run(s, moves), Go(i))) ==>
      AtRest(Run(s, moves)) && Run(s, moves).mapSem == 1 && Run(s, moves).allocSem == 1
    decreases |moves|
  {
    hide Holds, Step, Can, Work, AtRest;
    if moves == [] {
      if forall i: nat :: !Can(s, Go(i)) {
        HoldsMutex(s);
        if !AtRest(s) {
          NoDeadlock(s);
        }
        RestFree(s);
      }
    } else {
      StepWork(s, moves[0].pid);
      StepHolds(s, moves[0]);
      EveryCallReturns(Step(s, moves[0]), moves[1..]);
    }
  }

  lemma HoldsMutex(s: State)
    requires Holds(s)
    ensures Mutex(s)
  {
  }
}
