/** What every interleaving keeps in the allocator: mutual exclusion, and a region
    that the allocated blocks tile exactly. */
module AllocatorLaws {
  import opened Text
  import opened SharedMemory

  // ------------------------------------------------------ mutual exclusion

  function MapHolders(procs: seq<Pc>): set<nat> {
    set i: nat | i < |procs| && InMap(procs[i])
  }

  function AllocHolders(procs: seq<Pc>): set<nat> {
    set i: nat | i < |procs| && InAlloc(procs[i])
  }

  /** The semaphore and the processes inside add up to 1, for both levels. */
  predicate Mutex(s: State) {
    s.mapSem + |MapHolders(s.procs)| == 1 && s.allocSem + |AllocHolders(s.procs)| == 1
  }

  lemma HoldersUpdate(procs: seq<Pc>, i: nat, pc: Pc)
    requires i < |procs|
    ensures MapHolders(procs[i := pc]) == if InMap(pc) then MapHolders(procs) + {i} else MapHolders(procs) - {i}
    ensures AllocHolders(procs[i := pc]) == if InAlloc(pc) then AllocHolders(procs) + {i} else AllocHolders(procs) - {i}
  {
    hide InMap, InAlloc;
  }

  /** How a step moves process i in and out of the critical sections. */
  predicate Balanced(s: State, r: State, i: nat) {
    && i < |s.procs| && |r.procs| == |s.procs| && r.procs == s.procs[i := r.procs[i]]
    && (InMap(r.procs[i]) == InMap(s.procs[i]) ==> r.mapSem == s.mapSem)
    && (InMap(r.procs[i]) && !InMap(s.procs[i]) ==> r.mapSem == s.mapSem - 1)
    && (!InMap(r.procs[i]) && InMap(s.procs[i]) ==> r.mapSem == s.mapSem + 1)
    && (InAlloc(r.procs[i]) == InAlloc(s.procs[i]) ==> r.allocSem == s.allocSem)
    && (InAlloc(r.procs[i]) && !InAlloc(s.procs[i]) ==> r.allocSem == s.allocSem - 1)
    && (!InAlloc(r.procs[i]) && InAlloc(s.procs[i]) ==> r.allocSem == s.allocSem + 1)
  }

  lemma LookedBalanced(s: State, i: nat, op: Op)
    requires i < |s.procs| && s.procs[i] == Look(op)
    ensures Balanced(s, Looked(s, i, op), i)
  {
  }

  lemma AllocateBalanced(s: State, i: nat)
    requires i < |s.procs| && Allocating(s.procs[i]) && Ready(s, s.procs[i])
    ensures Balanced(s, AllocateStep(s, i), i)
  {
    hide NewOwner;
  }

  lemma DeallocateBalanced(s: State, i: nat)
    requires i < |s.procs| && Deallocating(s.procs[i]) && Ready(s, s.procs[i])
    ensures Balanced(s, DeallocateStep(s, i), i)
  {
  }

  lemma GoneBalanced(s: State, i: nat)
    requires i < |s.procs| && Ready(s, s.procs[i])
    ensures Balanced(s, Gone(s, i), i)
  {
    hide Looked, Replied, AllocateStep, DeallocateStep;
    var pc := s.procs[i];
    if pc.Look? {
      LookedBalanced(s, i, pc.op);
    } else if Allocating(pc) {
      AllocateBalanced(s, i);
    } else if Deallocating(pc) {
      DeallocateBalanced(s, i);
    }
  }

  lemma StepBalanced(s: State, m: Move)
    requires Can(s, m)
    ensures Balanced(s, Step(s, m), m.pid)
  {
    hide Gone, Balanced, InMap, InAlloc;
    match m
    case Begin(i, call) => CalledBalanced(s, i, call);
    case Go(i) => GoneBalanced(s, i);
  }

  lemma CalledBalanced(s: State, i: nat, call: Call)
    requires i < |s.procs| && s.procs[i].Idle?
    ensures Balanced(s, Called(s, i, call), i)
  {
  }

  lemma BalancedMutex(s: State, r: State, i: nat)
    requires Balanced(s, r, i) && Mutex(s)
    ensures Mutex(r)
  {
    hide InMap, InAlloc, MapHolders, AllocHolders;
    HoldersUpdate(s.procs, i, r.procs[i]);
    InHolders(s.procs, i);
  }

  lemma InHolders(procs: seq<Pc>, i: nat)
    requires i < |procs|
    ensures i in MapHolders(procs) <==> InMap(procs[i])
    ensures i in AllocHolders(procs) <==> InAlloc(procs[i])
  {
  }

  lemma AtMostOne(a: set<nat>, i: nat, j: nat)
    requires i in a && j in a && |a| <= 1
    ensures i == j
  {
    if i != j {
      assert {i, j} <= a;
      Subset({i, j}, a);
    }
  }

  lemma Subset(a: set<nat>, b: set<nat>)
    requires a <= b
    ensures |a| <= |b|
  {
    assert b == a + (b - a);
  }

  /** Nobody else is inside with process i, and the semaphore is taken. */
  lemma Alone(s: State, i: nat, j: nat)
    requires Mutex(s) && i < |s.procs| && j < |s.procs|
    ensures InMap(s.procs[i]) ==> s.mapSem == 0 && (InMap(s.procs[j]) ==> i == j)
    ensures InAlloc(s.procs[i]) ==> s.allocSem == 0 && (InAlloc(s.procs[j]) ==> i == j)
  {
    hide InMap, InAlloc, MapHolders, AllocHolders;
    InHolders(s.procs, i);
    InHolders(s.procs, j);
    if InMap(s.procs[i]) {
      Subset({i}, MapHolders(s.procs));
    }
    if InMap(s.procs[i]) && InMap(s.procs[j]) {
      AtMostOne(MapHolders(s.procs), i, j);
    }
    if InAlloc(s.procs[i]) {
      Subset({i}, AllocHolders(s.procs));
    }
    if InAlloc(s.procs[i]) && InAlloc(s.procs[j]) {
      AtMostOne(AllocHolders(s.procs), i, j);
    }
  }

  // ------------------------------------------------------------- the tiling

  /** The blocks lie one after the other from base to start. */
  predicate Adjacent(blocks: seq<Block>, base: nat, start: nat) {
    && (forall i :: 0 < i < |blocks| ==> blocks[i].addr == blocks[i - 1].addr + blocks[i - 1].size)
    && (if blocks == [] then start == base
        else blocks[0].addr == base && start == blocks[|blocks| - 1].addr + blocks[|blocks| - 1].size)
  }

  /** Besides, none is empty. */
  predicate Tiled(blocks: seq<Block>, base: nat, start: nat) {
    Adjacent(blocks, base, start) && forall i :: 0 <= i < |blocks| ==> blocks[i].size >= 1
  }

  lemma TiledOrder(blocks: seq<Block>, base: nat, start: nat, i: nat)
    requires Tiled(blocks, base, start) && i < |blocks|
    ensures base <= blocks[i].addr && blocks[i].addr + blocks[i].size <= start
  {
    TiledUp(blocks, base, start, 0, i);
    TiledUp(blocks, base, start, i, |blocks| - 1);
  }

  lemma {:induction false} TiledUp(blocks: seq<Block>, base: nat, start: nat, i: nat, j: nat)
    requires Tiled(blocks, base, start) && i <= j < |blocks|
    ensures if i < j then blocks[i].addr + blocks[i].size <= blocks[j].addr else blocks[i] == blocks[j]
    decreases j
  {
    if i < j {
      TiledUp(blocks, base, start, i, j - 1);
      assert blocks[j].addr == blocks[j - 1].addr + blocks[j - 1].size;
    }
  }

  /** Any two blocks are one and the same or apart, and all are inside. */
  lemma BlocksApart(blocks: seq<Block>, base: nat, start: nat, a: Block, b: Block)
    requires Tiled(blocks, base, start) && a in blocks && b in blocks
    ensures a == b || a.addr + a.size <= b.addr || b.addr + b.size <= a.addr
    ensures base <= a.addr && a.addr + a.size <= start && a.size >= 1
  {
    var i :| 0 <= i < |blocks| && blocks[i] == a;
    var j :| 0 <= j < |blocks| && blocks[j] == b;
    TiledOrder(blocks, base, start, i);
    TiledUp(blocks, base, start, if i < j then i else j, if i < j then j else i);
  }

  lemma AdjacentAppend(blocks: seq<Block>, base: nat, start: nat, size: nat)
    requires Adjacent(blocks, base, start)
    ensures Adjacent(blocks + [Block(start, size)], base, start + size)
  {
    var r := blocks + [Block(start, size)];
    forall i | 0 < i < |r| ensures r[i].addr == r[i - 1].addr + r[i - 1].size {
      assert i < |blocks| ==> r[i] == blocks[i] && r[i - 1] == blocks[i - 1];
    }
  }

  lemma AdjacentDrop(blocks: seq<Block>, base: nat, start: nat)
    requires blocks != [] && Adjacent(blocks, base, start)
    ensures Adjacent(blocks[..|blocks| - 1], base, blocks[|blocks| - 1].addr)
  {
    var r := blocks[..|blocks| - 1];
    if r != [] {
      assert r[|r| - 1] == blocks[|blocks| - 2];
    }
  }

  /** The block that ends at start is the last one, so deallocate gives back the block
      that was allocated last. */
  lemma TiledDrop(blocks: seq<Block>, base: nat, start: nat, p: nat, size: nat)
    requires Tiled(blocks, base, start) && Block(p, size) in blocks && start == p + size
    ensures blocks != [] && blocks[|blocks| - 1] == Block(p, size)
    ensures Tiled(blocks[..|blocks| - 1], base, p)
  {
    var n := |blocks| - 1;
    BlocksApart(blocks, base, start, Block(p, size), blocks[n]);
    BlocksApart(blocks, base, start, blocks[n], blocks[n]);
    AdjacentDrop(blocks, base, start);
  }

  // -------------------------------------------------- who owns which block

  predicate Sized(s: State, size: nat, who: Caller) {
    size >= 1 && (who.ForInsert? ==> size == s.node && who.key !in s.nodes)
  }

  /** What a process that is inside a call may rely on. */
  predicate Placed(s: State, i: nat)
    requires i < |s.procs|
  {
    match s.procs[i]
    case WaitAlloc(size, who) => Sized(s, size, who)
    case ReadStart(size, who) => Sized(s, size, who)
    case Test(size, res, who) => Sized(s, size, who) && res == s.start
    case Bump(size, res, who) => Sized(s, size, who) && res == s.start && res + size <= s.end
    case PostAlloc(got, size, who) =>
      Sized(s, size, who) && (who.ForInsert? && got.Some? ==> Own(s, got.value, size, Pending(i)))
    case Link(k, v, p) => k !in s.nodes && Own(s, p, s.node, Pending(i))
    case WaitFree(p, size, _) => Own(s, p, size, Freeing(i))
    case Compare(p, size, _) => Own(s, p, size, Freeing(i))
    case Lower(p, size, _) => Own(s, p, size, Freeing(i)) && s.start == p + size
    case _ => true
  }

  /** The process is about to link the node at a. */
  predicate Fills(pc: Pc, a: nat) {
    (pc.PostAlloc? && pc.who.ForInsert? && pc.got == Some(a)) || (pc.Link? && pc.node == a)
  }

  /** The process is about to give back the block at a. */
  predicate Frees(pc: Pc, a: nat) {
    (pc.WaitFree? || pc.Compare? || pc.Lower?) && pc.p == a
  }

  /** Every block has an owner, and no block is on its way without a process. */
  predicate Accounted(s: State, b: Block) {
    && b.addr in s.owners
    && match s.owners[b.addr]
       case Pending(j) => j < |s.procs| && Fills(s.procs[j], b.addr)
       case Freeing(j) => j < |s.procs| && Frees(s.procs[j], b.addr)
       case Linked => InNode(s.nodes, b.addr)
       case _ => true
  }

  predicate InNode(nodes: map<Key, Node>, a: nat) {
    exists k :: k in nodes && nodes[k].addr == a
  }

  /** Every node of the map has a block of its own. */
  predicate Seats(s: State) {
    && (forall k | k in s.nodes :: Own(s, s.nodes[k].addr, s.node, Linked))
    && (forall k, l | k in s.nodes && l in s.nodes && k != l :: s.nodes[k].addr != s.nodes[l].addr)
  }

  predicate Sound(s: State) {
    && Tiled(s.blocks, s.base, s.start) && s.start <= s.end && s.node >= 1
    && (forall i: nat | i < |s.procs| :: Placed(s, i))
    && (forall b | b in s.blocks :: Accounted(s, b))
    && Seats(s)
  }

  /** The owner is a process other than i. */
  predicate Anothers(o: Owner, i: nat) {
    (o.Pending? && o.pid != i) || (o.Freeing? && o.pid != i)
  }

  /** What a step of process i does not do to the others. */
  predicate Frame(s: State, r: State, i: nat) {
    && r.base == s.base && r.end == s.end && r.node == s.node
    && i < |s.procs| && |r.procs| == |s.procs| && r.procs == s.procs[i := r.procs[i]]
    && (r.start != s.start ==> InAlloc(s.procs[i]))
    && (r.nodes.Keys != s.nodes.Keys ==> InMap(s.procs[i]))
    && (forall b | b in s.blocks && b.addr in s.owners && Anothers(s.owners[b.addr], i) ::
          Own(r, b.addr, b.size, s.owners[b.addr]))
  }

  lemma OwnFrame(s: State, r: State, i: nat, p: nat, size: nat, o: Owner)
    requires Frame(s, r, i) && Own(s, p, size, o) && Anothers(o, i)
    ensures Own(r, p, size, o)
  {
    assert Block(p, size).addr == p;
  }

  lemma OtherPlaced(s: State, r: State, i: nat, j: nat)
    requires Mutex(s) && Frame(s, r, i) && j < |s.procs| && j != i && Placed(s, j)
    ensures Placed(r, j)
  {
    hide Mutex, Frame;
    FrameMeans(s, r, i, j);
    Alone(s, j, i);
    match s.procs[j]
    case PostAlloc(got, size, who) =>
      if who.ForInsert? && got.Some? {
        OwnFrame(s, r, i, got.value, size, Pending(j));
      }
    case Link(k, v, p) => OwnFrame(s, r, i, p, s.node, Pending(j));
    case WaitFree(p, size, _) => OwnFrame(s, r, i, p, size, Freeing(j));
    case Compare(p, size, _) => OwnFrame(s, r, i, p, size, Freeing(j));
    case Lower(p, size, _) => OwnFrame(s, r, i, p, size, Freeing(j));
    case _ =>
  }

  lemma FrameMeans(s: State, r: State, i: nat, j: nat)
    requires Frame(s, r, i) && j < |s.procs| && j != i
    ensures i < |s.procs| && r.procs[j] == s.procs[j] && r.node == s.node && r.end == s.end && |r.procs| == |s.procs|
    ensures r.start != s.start ==> InAlloc(s.procs[i])
    ensures r.nodes.Keys != s.nodes.Keys ==> InMap(s.procs[i])
  {
  }

  /** It remains to look at the process that moved, its blocks and the map. */
  lemma Assemble(s: State, r: State, i: nat)
    requires Mutex(s) && Sound(s) && Frame(s, r, i) && Placed(r, i)
    requires Tiled(r.blocks, r.base, r.start) && r.start <= r.end
    requires Seats(r)
    requires forall b | b in r.blocks :: Accounted(r, b)
    ensures Sound(r)
  {
    hide Mutex, Frame, Placed, Accounted, Seats, Tiled;
    forall j: nat | j < |r.procs| ensures Placed(r, j) {
      if j != i {
        FrameSize(s, r, i);
        OtherPlaced(s, r, i, j);
      }
    }
    FrameSize(s, r, i);
  }

  lemma FrameSize(s: State, r: State, i: nat)
    requires Frame(s, r, i)
    ensures |r.procs| == |s.procs| && r.node == s.node
  {
  }

  // ------------------------------------------------------ the kinds of steps

  /** A step that leaves the blocks and the keys alone. */
  lemma QuietSound(s: State, r: State, i: nat)
    requires Mutex(s) && Sound(s) && i < |s.procs|
    requires |r.procs| == |s.procs| && r.procs == s.procs[i := r.procs[i]]
    requires r.base == s.base && r.end == s.end && r.node == s.node && r.start == s.start
    requires r.blocks == s.blocks && r.owners == s.owners
    requires r.nodes.Keys == s.nodes.Keys && forall k | k in s.nodes :: r.nodes[k].addr == s.nodes[k].addr
    requires Placed(r, i)
    requires forall a ::
      (Fills(s.procs[i], a) ==> Fills(r.procs[i], a)) && (Frees(s.procs[i], a) ==> Frees(r.procs[i], a))
    ensures Sound(r)
  {
    hide Mutex, Placed, Tiled, Fills, Frees;
    forall b | b in r.blocks ensures Accounted(r, b) {
      QuietAccounted(s, r, i, b);
    }
    Assemble(s, r, i);
  }

  lemma QuietAccounted(s: State, r: State, i: nat, b: Block)
    requires Accounted(s, b) && i < |s.procs|
    requires |r.procs| == |s.procs| && r.procs == s.procs[i := r.procs[i]] && r.owners == s.owners
    requires r.nodes.Keys == s.nodes.Keys && forall k | k in s.nodes :: r.nodes[k].addr == s.nodes[k].addr
    requires forall a ::
      (Fills(s.procs[i], a) ==> Fills(r.procs[i], a)) && (Frees(s.procs[i], a) ==> Frees(r.procs[i], a))
    ensures Accounted(r, b)
  {
    hide Fills, Frees;
    if s.owners[b.addr].Linked? {
      var k :| k in s.nodes && s.nodes[k].addr == b.addr;
      assert k in r.nodes && r.nodes[k].addr == b.addr;
    }
  }

  /** A step that gives the block at p another owner. */
  lemma ReownSound(s: State, r: State, i: nat, p: nat, size: nat, was: Owner, o: Owner)
    requires Mutex(s) && Sound(s) && i < |s.procs|
    requires |r.procs| == |s.procs| && r.procs == s.procs[i := r.procs[i]]
    requires r.base == s.base && r.end == s.end && r.node == s.node && r.start == s.start
    requires Own(s, p, size, was) && !Anothers(was, i) && r.blocks == s.blocks && r.owners == s.owners[p := o]
    requires r.nodes.Keys != s.nodes.Keys ==> InMap(s.procs[i])
    requires Placed(r, i) && Seats(r) && Accounted(r, Block(p, size))
    requires forall a ::
      a != p ==> (Fills(s.procs[i], a) ==> Fills(r.procs[i], a)) && (Frees(s.procs[i], a) ==> Frees(r.procs[i], a))
    requires forall k | k in s.nodes && s.nodes[k].addr != p :: k in r.nodes && r.nodes[k].addr == s.nodes[k].addr
    ensures Sound(r)
  {
    hide Mutex, Placed, Tiled, Fills, Frees, Seats, InMap, InAlloc;
    forall b | b in r.blocks ensures Accounted(r, b) {
      BlocksApart(s.blocks, s.base, s.start, b, Block(p, size));
      if b.addr != p {
        ReownAccounted(s, r, i, p, o, b);
      }
    }
    Assemble(s, r, i);
  }

  lemma ReownAccounted(s: State, r: State, i: nat, p: nat, o: Owner, b: Block)
    requires Accounted(s, b) && b.addr != p && i < |s.procs|
    requires |r.procs| == |s.procs| && r.procs == s.procs[i := r.procs[i]] && r.owners == s.owners[p := o]
    requires forall a ::
      a != p ==> (Fills(s.procs[i], a) ==> Fills(r.procs[i], a)) && (Frees(s.procs[i], a) ==> Frees(r.procs[i], a))
    requires forall k | k in s.nodes && s.nodes[k].addr != p :: k in r.nodes && r.nodes[k].addr == s.nodes[k].addr
    ensures Accounted(r, b)
  {
    hide Fills, Frees;
    if s.owners[b.addr].Linked? {
      var k :| k in s.nodes && s.nodes[k].addr == b.addr;
      assert k in r.nodes && r.nodes[k].addr == b.addr;
    }
  }

  lemma SeatsReown(s: State, r: State, p: nat, o: Owner)
    requires Seats(s) && r.nodes == s.nodes && r.blocks == s.blocks && r.node == s.node
    requires p in s.owners && s.owners[p] != Linked && r.owners == s.owners[p := o]
    ensures Seats(r)
  {
    forall k | k in r.nodes ensures Own(r, r.nodes[k].addr, r.node, Linked) {
      assert Own(s, s.nodes[k].addr, s.node, Linked);
    }
  }

  lemma CallFreeSound(s: State, i: nat, p: nat, size: nat)
    requires Mutex(s) && Sound(s) && i < |s.procs| && s.procs[i].Idle? && Own(s, p, size, Held)
    ensures Sound(Called(s, i, CallDeallocate(p, size)))
  {
    hide Mutex, Tiled, Seats, InMap, InAlloc, Sound;
    var r := Called(s, i, CallDeallocate(p, size));
    SoundSeats(s);
    SeatsReown(s, r, p, Freeing(i));
    ReownSound(s, r, i, p, size, Held, Freeing(i));
  }

  lemma SoundSeats(s: State)
    requires Sound(s)
    ensures Seats(s) && Tiled(s.blocks, s.base, s.start) && s.node >= 1 && s.start <= s.end
  {
  }

  lemma SoundPlaced(s: State, i: nat)
    requires Sound(s) && i < |s.procs|
    ensures Placed(s, i)
  {
  }

  /** unlink: the node's block is no longer the map's. */
  lemma EraseSound(s: State, i: nat, k: Key)
    requires Mutex(s) && Sound(s) && i < |s.procs| && s.procs[i] == Look(Erase(k)) && k in s.nodes
    ensures Sound(Looked(s, i, Erase(k)))
  {
    hide Mutex, Tiled, InAlloc, Sound;
    SoundSeats(s);
    var r, p := Looked(s, i, Erase(k)), s.nodes[k].addr;
    assert Own(s, p, s.node, Linked);
    forall l | l in r.nodes ensures Own(r, r.nodes[l].addr, r.node, Linked) {
      assert Own(s, s.nodes[l].addr, s.node, Linked);
    }
    assert Seats(r);
    ReownSound(s, r, i, p, s.node, Linked, Freeing(i));
  }

  lemma LinkSound(s: State, i: nat)
    requires Mutex(s) && Sound(s) && i < |s.procs| && s.procs[i].Link?
    ensures Sound(Gone(s, i))
  {
    hide Mutex, Tiled, InAlloc, Sound;
    SoundSeats(s);
    SoundPlaced(s, i);
    var r, p, k := Gone(s, i), s.procs[i].node, s.procs[i].key;
    assert Own(s, p, s.node, Pending(i));
    forall l | l in r.nodes ensures Own(r, r.nodes[l].addr, r.node, Linked) {
      assert l != k ==> Own(s, s.nodes[l].addr, s.node, Linked);
    }
    assert k in r.nodes && r.nodes[k].addr == p;
    ReownSound(s, r, i, p, s.node, Pending(i), Linked);
  }

  lemma LoseSound(s: State, i: nat)
    requires Mutex(s) && Sound(s) && i < |s.procs| && s.procs[i].Compare? && s.start != s.procs[i].p + s.procs[i].size
    ensures Sound(Gone(s, i))
  {
    hide Mutex, Tiled, Seats, InMap, InAlloc, Sound;
    SoundSeats(s);
    SoundPlaced(s, i);
    var r, p := Gone(s, i), s.procs[i].p;
    SeatsReown(s, r, p, Lost);
    ReownSound(s, r, i, p, s.procs[i].size, Freeing(i), Lost);
  }

  lemma BumpSound(s: State, i: nat)
    requires Mutex(s) && Sound(s) && i < |s.procs| && s.procs[i].Bump?
    ensures Sound(Gone(s, i))
  {
    hide Mutex, Adjacent, InMap, Sound, InNode, Seats;
    SoundSeats(s);
    SoundPlaced(s, i);
    var r := Gone(s, i);
    AdjacentAppend(s.blocks, s.base, s.start, s.procs[i].size);
    var top := Block(s.start, s.procs[i].size);
    assert r.blocks[|s.blocks|] == top;
    BumpOwns(s, r);
    BumpSeats(s, r);
    forall b | b in r.blocks ensures Accounted(r, b) {
      if b != top {
        assert b in s.blocks;
        BumpAccounted(s, i, b);
      }
    }
    assert Placed(r, i);
    Assemble(s, r, i);
  }

  lemma BumpSeats(s: State, r: State)
    requires Seats(s) && r.nodes == s.nodes && r.node == s.node
    requires forall p, size, o | Own(s, p, size, o) :: Own(r, p, size, o)
    ensures Seats(r)
  {
    hide Own;
    forall k | k in r.nodes ensures Own(r, r.nodes[k].addr, r.node, Linked) {
      assert Own(s, s.nodes[k].addr, s.node, Linked);
    }
  }

  lemma BumpAccounted(s: State, i: nat, b: Block)
    requires Sound(s) && i < |s.procs| && s.procs[i].Bump? && b in s.blocks
    ensures Accounted(Gone(s, i), b)
  {
    hide Tiled, Sound, Seats, InNode;
    SoundSeats(s);
    SoundPlaced(s, i);
    SoundAccounted(s, b);
    BlocksApart(s.blocks, s.base, s.start, b, b);
  }

  lemma SoundAccounted(s: State, b: Block)
    requires Sound(s) && b in s.blocks
    ensures Accounted(s, b)
  {
  }

  /** A new block at start leaves those below it alone. */
  lemma BumpOwns(s: State, r: State)
    requires Tiled(s.blocks, s.base, s.start)
    requires s.blocks <= r.blocks && r.owners.Keys == s.owners.Keys + {s.start}
    requires forall a | a in s.owners && a != s.start :: r.owners[a] == s.owners[a]
    ensures forall p, size, o | Own(s, p, size, o) :: Own(r, p, size, o)
  {
    hide Tiled;
    forall p, size, o | Own(s, p, size, o) ensures Own(r, p, size, o) {
      BlocksApart(s.blocks, s.base, s.start, Block(p, size), Block(p, size));
      var j :| 0 <= j < |s.blocks| && s.blocks[j] == Block(p, size);
      assert r.blocks[j] == Block(p, size);
    }
  }

  /** What is left when the last block is given back. */
  lemma LowerOwns(s: State, r: State, p: nat, size: nat)
    requires Tiled(s.blocks, s.base, s.start) && Block(p, size) in s.blocks && s.start == p + size
    requires s.blocks != [] && r.blocks == s.blocks[..|s.blocks| - 1] && r.owners == s.owners - {p}
    ensures forall b | b in r.blocks :: b in s.blocks && b.addr != p
    ensures forall a, n, o | Own(s, a, n, o) && a != p :: Own(r, a, n, o)
  {
    hide Tiled;
    TiledDrop(s.blocks, s.base, s.start, p, size);
    var n := |s.blocks| - 1;
    forall b | b in r.blocks ensures b in s.blocks && b.addr != p {
      var j :| 0 <= j < |r.blocks| && r.blocks[j] == b;
      TiledUp(s.blocks, s.base, s.start, j, n);
      BlocksApart(s.blocks, s.base, s.start, s.blocks[j], s.blocks[j]);
    }
    forall a, m, o | Own(s, a, m, o) && a != p ensures Own(r, a, m, o) {
      var j :| 0 <= j < |s.blocks| && s.blocks[j] == Block(a, m);
      assert r.blocks[j] == Block(a, m);
    }
  }

  lemma LowerSound(s: State, i: nat)
    requires Mutex(s) && Sound(s) && i < |s.procs| && s.procs[i].Lower?
    ensures Sound(Gone(s, i))
  {
    hide Mutex, Tiled, InMap, Sound;
    SoundSeats(s);
    SoundPlaced(s, i);
    var r, p, size := Gone(s, i), s.procs[i].p, s.procs[i].size;
    TiledDrop(s.blocks, s.base, s.start, p, size);
    LowerOwns(s, r, p, size);
    forall k | k in r.nodes ensures Own(r, r.nodes[k].addr, r.node, Linked) {
      assert Own(s, s.nodes[k].addr, s.node, Linked);
    }
    forall b | b in r.blocks ensures Accounted(r, b) {
      SoundAccounted(s, b);
    }
    assert Seats(r);
    Assemble(s, r, i);
  }

  // ------------------------------------------------------------- every step

  lemma LookedSound(s: State, i: nat, op: Op)
    requires Mutex(s) && Sound(s) && i < |s.procs| && s.procs[i] == Look(op)
    ensures Sound(Looked(s, i, op))
  {
    hide Mutex, Tiled, InMap, InAlloc, Sound;
    SoundSeats(s);
    if op.Erase? && op.key in s.nodes {
      EraseSound(s, i, op.key);
    } else {
      QuietSound(s, Looked(s, i, op), i);
    }
  }

  lemma GoneSound(s: State, i: nat)
    requires Mutex(s) && Sound(s) && i < |s.procs| && Ready(s, s.procs[i])
    ensures Sound(Gone(s, i))
  {
    hide Mutex, Tiled, InMap, InAlloc, Sound, Looked, Seats;
    SoundPlaced(s, i);
    var pc := s.procs[i];
    if pc.Look? {
      LookedSound(s, i, pc.op);
    } else if pc.Bump? {
      BumpSound(s, i);
    } else if pc.Link? {
      LinkSound(s, i);
    } else if pc.Lower? {
      LowerSound(s, i);
    } else if pc.Compare? && s.start != pc.p + pc.size {
      LoseSound(s, i);
    } else {
      QuietSound(s, Gone(s, i), i);
    }
  }

  lemma StepSound(s: State, m: Move)
    requires Mutex(s) && Sound(s)
    ensures Mutex(Step(s, m)) && Sound(Step(s, m))
  {
    hide Mutex, Sound, Gone;
    if Can(s, m) {
      StepBalanced(s, m);
      BalancedMutex(s, Step(s, m), m.pid);
      match m
      case Go(i) => GoneSound(s, i);
      case Begin(i, call) => CalledSound(s, i, call);
    }
  }

  lemma CalledSound(s: State, i: nat, call: Call)
    requires Mutex(s) && Sound(s) && i < |s.procs| && s.procs[i].Idle? && Proper(s, call)
    ensures Sound(Called(s, i, call))
  {
    hide Mutex, Sound;
    if call.CallDeallocate? {
      CallFreeSound(s, i, call.p, call.size);
    } else {
      QuietSound(s, Called(s, i, call), i);
    }
  }

  lemma InitialSound(base: nat, end: nat, node: nat, n: nat)
    requires base <= end && node >= 1
    ensures Mutex(Initial(base, end, node, n)) && Sound(Initial(base, end, node, n))
  {
    var s := Initial(base, end, node, n);
    assert MapHolders(s.procs) == {} && AllocHolders(s.procs) == {};
  }
}
