/** A process of the machine that runs alone does what the method of the object does. */
module Solo {
  import opened Text
  import opened SharedMemory
  import opened MapLaws
  import opened SharedRuns

  /** Process i runs until its call has returned. */
  function Finish(s: State, i: nat): State
    requires i < |s.procs|
    decreases Rank(s.procs[i])
  {
    if !Can(s, Go(i)) then s
    else
      StepRank(s, i);
      Finish(Gone(s, i), i)
  }

  lemma OneStep(s: State, i: nat)
    requires i < |s.procs| && Can(s, Go(i))
    ensures Finish(s, i) == Finish(Gone(s, i), i)
  {
  }

  /** The parts of the state that the method sees. */
  predicate Sees(s: State, t: State, i: nat) {
    && i < |s.procs| && |t.procs| == |s.procs| && t.procs == s.procs[i := t.procs[i]]
    && t.node == s.node && t.end == s.end && t.mapSem == s.mapSem && t.log == s.log
  }

  lemma SoloAllocate(s: State, i: nat) returns (t: State)
    requires i < |s.procs| && s.procs[i].WaitAlloc? && s.allocSem == 1
    ensures Sees(s, t, i) && t.nodes == s.nodes && t.allocSem == 1
    ensures Finish(s, i) == Finish(t, i)
    ensures var size := s.procs[i].size;
            && t.procs[i] == Returned(AllocatedAt(Region(s.start, s.end), size), s.procs[i].who)
            && t.start == AfterAllocate(Region(s.start, s.end), size).start
  {
    hide Finish;
    var a := Gone(s, i);
    OneStep(s, i);
    var b := Gone(a, i);
    OneStep(a, i);
    var c := Gone(b, i);
    OneStep(b, i);
    var d := if c.procs[i].Bump? then Gone(c, i) else c;
    if c.procs[i].Bump? {
      OneStep(c, i);
    }
    t := Gone(d, i);
    OneStep(d, i);
  }

  lemma SoloCompare(s: State, i: nat) returns (t: State)
    requires i < |s.procs| && s.procs[i].Compare?
    ensures Sees(s, t, i) && t.nodes == s.nodes && t.allocSem == s.allocSem
    ensures Finish(s, i) == Finish(t, i) && t.procs[i] == PostFree(s.procs[i].erasing)
    ensures t.start == AfterDeallocate(Region(s.start, s.end), s.procs[i].p, s.procs[i].size).start
  {
    hide Finish;
    t := Gone(s, i);
    OneStep(s, i);
    if t.procs[i].Lower? {
      OneStep(t, i);
      t := Gone(t, i);
    }
  }

  lemma SoloDeallocate(s: State, i: nat) returns (t: State)
    requires i < |s.procs| && s.procs[i].WaitFree? && s.allocSem == 1
    ensures Sees(s, t, i) && t.nodes == s.nodes && t.allocSem == 1
    ensures Finish(s, i) == Finish(t, i)
    ensures t.procs[i] == if s.procs[i].erasing then Unlock(Count(1)) else Idle
    ensures t.start == AfterDeallocate(Region(s.start, s.end), s.procs[i].p, s.procs[i].size).start
  {
    hide Finish, InMap, InAlloc, Looked, AllocateStep, Replied, Own, AfterDeallocate;
    var a := Gone(s, i);
    OneStep(s, i);
    var b := SoloCompare(a, i);
    t := Gone(b, i);
    OneStep(b, i);
  }

  /** The mutex is taken and the operation looks at the map. */
  lemma SoloEnter(s: State, i: nat, op: Op) returns (t: State)
    requires i < |s.procs| && s.procs[i].Idle? && s.mapSem == 1
    ensures |t.procs| == |s.procs| && t.procs[i] == Look(op) && t.mapSem == 0
    ensures t.node == s.node && t.end == s.end && t.start == s.start && t.nodes == s.nodes && t.allocSem == s.allocSem
    ensures t.log != [] && Before(t.log) == s.log && Last(t.log).op == op && Last(t.log).pid == i
    ensures Finish(Called(s, i, CallMap(op)), i) == Finish(t, i)
  {
    hide Finish;
    var a := Called(s, i, CallMap(op));
    t := Gone(a, i);
    OneStep(a, i);
    assert Before(t.log) == s.log;
  }

  /** The mutex is released and the reply returned. */
  lemma SoloLeave(s: State, i: nat) returns (t: State)
    requires i < |s.procs| && s.procs[i].Unlock? && s.log != []
    ensures |t.procs| == |s.procs| && t.procs[i].Idle? && t.mapSem == s.mapSem + 1
    ensures t.node == s.node && t.end == s.end && t.start == s.start && t.nodes == s.nodes && t.allocSem == s.allocSem
    ensures t.log != [] && Before(t.log) == Before(s.log) && Last(t.log).op == Last(s.log).op
    ensures Last(t.log).pid == Last(s.log).pid && Last(t.log).reply == Some(s.procs[i].reply)
    ensures Finish(s, i) == t
  {
    t := Gone(s, i);
    assert Before(t.log) == Before(s.log);
  }

  lemma SoloLook(s: State, i: nat, op: Op) returns (t: State)
    requires i < |s.procs| && s.procs[i] == Look(op) && s.allocSem == 1
    ensures |t.procs| == |s.procs| && t.procs[i].Unlock? && t.mapSem == s.mapSem && t.log == s.log
    ensures t.node == s.node && t.end == s.end && t.allocSem == 1
    ensures Does(s.nodes, Region(s.start, s.end), s.node, op, t.procs[i].reply, t.nodes, Region(t.start, t.end))
    ensures Finish(s, i) == Finish(t, i)
  {
    hide Finish, Does;
    t := Gone(s, i);
    OneStep(s, i);
    match op
    case Insert(k, v) =>
      if k !in s.nodes {
        t := SoloAllocate(t, i);
        if t.procs[i].Link? {
          OneStep(t, i);
          t := Gone(t, i);
        }
      }
      InsertDoes(s.nodes, Region(s.start, s.end), s.node, k, v);
    case Erase(k) =>
      if k in s.nodes {
        t := SoloDeallocate(t, i);
      }
      EraseDoes(s.nodes, Region(s.start, s.end), s.node, k);
    case At(k) =>
      AtDoes(s.nodes, Region(s.start, s.end), s.node, k);
  }

  lemma InsertDoes(nodes: map<Key, Node>, space: Region, unit: nat, k: Key, v: Value)
    ensures k in nodes ==> Does(nodes, space, unit, Insert(k, v), Stored, nodes[k := nodes[k].(value := v)], space)
    ensures k !in nodes ==>
      match AllocatedAt(space, unit)
      case None => Does(nodes, space, unit, Insert(k, v), NoMemory, nodes, space)
      case Some(p) => Does(nodes, space, unit, Insert(k, v), Stored, nodes[k := Node(v, p)], AfterAllocate(space, unit))
  {
    if k in nodes {
      assert Values(nodes[k := nodes[k].(value := v)]) == Values(nodes)[k := v];
    } else if AllocatedAt(space, unit).Some? {
      assert Values(nodes[k := Node(v, space.start)]) == Values(nodes)[k := v];
    }
  }

  lemma EraseDoes(nodes: map<Key, Node>, space: Region, unit: nat, k: Key)
    ensures k in nodes ==>
      Does(nodes, space, unit, Erase(k), Count(1), nodes - {k}, AfterDeallocate(space, nodes[k].addr, unit))
    ensures k !in nodes ==> Does(nodes, space, unit, Erase(k), Count(0), nodes, space)
  {
    assert Values(nodes - {k}) == Values(nodes) - {k};
    if k !in nodes {
      assert nodes - {k} == nodes;
    }
  }

  lemma AtDoes(nodes: map<Key, Node>, space: Region, unit: nat, k: Key)
    ensures Does(nodes, space, unit, At(k), if k in nodes then Found(nodes[k].value) else Missing, nodes, space)
  {
  }

  /** Alone, from a state where nothing is locked, a process's call runs to its end and
      does to map and memory exactly what the object's method does; it is logged with
      that reply and leaves nothing locked. */
  lemma AloneIsMethod(s: State, i: nat, op: Op)
    requires i < |s.procs| && s.procs[i].Idle? && s.mapSem == 1 && s.allocSem == 1
    ensures var t := Finish(Called(s, i, CallMap(op)), i);
            && |t.procs| == |s.procs| && t.procs[i].Idle? && t.mapSem == 1 && t.allocSem == 1
            && t.log != [] && Before(t.log) == s.log && Last(t.log).op == op && Last(t.log).pid == i
            && Last(t.log).reply.Some?
            && Does(s.nodes, Region(s.start, s.end), s.node, op,
                    Last(t.log).reply.value, t.nodes, Region(t.start, t.end))
  {
    hide Finish, Does, Before, Called;
    var a := SoloEnter(s, i, op);
    var b := SoloLook(a, i, op);
    var c := SoloLeave(b, i);
  }

  /** A call does one thing only. */
  lemma DoesDetermines(nodes: map<Key, Node>, space: Region, unit: nat, op: Op,
                       r: Reply, n: map<Key, Node>, p: Region, r': Reply, n': map<Key, Node>, p': Region)
    requires Does(nodes, space, unit, op, r, n, p) && Does(nodes, space, unit, op, r', n', p')
    ensures r == r' && n == n' && p == p'
  {
    if op.Insert? {
      forall k | k in n || k in n' ensures k in n && k in n' && n[k] == n'[k] {
        assert k in Values(n) && k in Values(n') && Values(n)[k] == Values(n')[k];
      }
    }
  }
}
