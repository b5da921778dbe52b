/** The classes of include/shmem and src/shmem/Shmem.cpp as objects in memory. One process runs a
    method here until it returns or has to wait for a semaphore; SharedMemory interleaves
    the steps in between. */
module Shmem {
  import opened Text
  import opened SharedMemory

  /** How far a call comes: it waits inside sem_wait, or returns. */
  datatype Outcome<T> = Waits | Returns(value: T)

  /** sem_t */
  class Semaphore {
    var value: nat

    constructor (value: nat)
      ensures this.value == value
    {
      this.value := value;
    }

    /** sem_wait: whether it returns, which it does while the value is positive. */
    method Wait() returns (entered: bool)
      modifies this
      ensures entered == (old(value) > 0)
      ensures value == if entered then old(value) - 1 else old(value)
    {
      entered := value > 0;
      if entered {
        value := value - 1;
      }
    }

    /** sem_post */
    method Post()
      modifies this
      ensures value == old(value) + 1
    {
      value := value + 1;
    }
  }

  class ShmemAllocatorState {
    var start: nat
    var end: nat
    const mtx: Semaphore

    function View(): Region
      reads this
    {
      Region(start, end)
    }

    /** What Shmem's constructor makes of a fresh mapping of size bytes at address,
        whose first header bytes are the state itself. */
    constructor (address: nat, size: nat, header: nat)
      ensures View() == Region(address + header, address + size) && mtx.value == 1 && fresh(mtx)
    {
      start, end := address + header, address + size;
      mtx := new Semaphore(1);
    }
  }

  /** ShmemAllocator<T>; unit is sizeof(T). */
  class ShmemAllocator {
    const state: ShmemAllocatorState
    const unit: nat

    constructor (state: ShmemAllocatorState, unit: nat)
      ensures this.state == state && this.unit == unit
    {
      this.state, this.unit := state, unit;
    }

    /** None when bad_alloc is thrown; the semaphore is released either way. A call that
        finds it taken waits and changes nothing. */
    method Allocate(n: nat) returns (r: Outcome<Option<nat>>)
      modifies state, state.mtx
      ensures r.Waits? <==> old(state.mtx.value) == 0
      ensures r.Waits? ==> state.View() == old(state.View())
      ensures r.Returns? ==> r.value == AllocatedAt(old(state.View()), unit * n)
      ensures r.Returns? ==> state.View() == AfterAllocate(old(state.View()), unit * n)
      ensures r.Returns? && old(state.start) + unit * n <= old(state.end) ==>
        r.value == Some(old(state.start)) && state.start == old(state.start) + unit * n
      ensures r.Returns? && old(state.start) + unit * n > old(state.end) ==>
        r.value == None && state.start == old(state.start)
      ensures state.end == old(state.end)
      ensures state.mtx.value == old(state.mtx.value)
    {
      var entered := state.mtx.Wait();
      if !entered {
        return Waits;
      }
      var res := state.start;
      if res + unit * n > state.end {
        state.mtx.Post();
        return Returns(None);
      }
      state.start := state.start + unit * n;
      state.mtx.Post();
      return Returns(Some(res));
    }

    method Deallocate(p: nat, n: nat) returns (r: Outcome<()>)
      modifies state, state.mtx
      ensures r.Waits? <==> old(state.mtx.value) == 0
      ensures state.View() == if r.Waits? then old(state.View()) else AfterDeallocate(old(state.View()), p, n * unit)
      ensures state.start == if r.Returns? && old(state.start) == p + n * unit then p else old(state.start)
      ensures state.end == old(state.end)
      ensures state.mtx.value == old(state.mtx.value)
    {
      var entered := state.mtx.Wait();
      if !entered {
        return Waits;
      }
      if state.start - n * unit == p {
        state.start := state.start - n * unit;
      }
      state.mtx.Post();
      return Returns(());
    }
  }

  /** A semaphore at an address from the allocator. */
  class SemaphoreMutex {
    const semaphore: Semaphore
    const address: nat

    constructor (address: nat)
      ensures semaphore.value == 1 && fresh(semaphore) && this.address == address
    {
      this.address := address;
      semaphore := new Semaphore(1);
    }

    /** Whether lock returns; else it waits. */
    method Lock() returns (entered: bool)
      modifies semaphore
      ensures entered == (old(semaphore.value) > 0)
      ensures semaphore.value == if entered then old(semaphore.value) - 1 else old(semaphore.value)
    {
      entered := semaphore.Wait();
    }

    method Unlock()
      modifies semaphore
      ensures semaphore.value == old(semaphore.value) + 1
    {
      semaphore.Post();
    }
  }

  /** nodes are the tree's nodes; the allocator's unit is the size of one. */
  class ShmemMap {
    var nodes: map<Key, Node>
    const allocator: ShmemAllocator
    const mutex: SemaphoreMutex

    /** The two levels have semaphores of their own. */
    ghost predicate Valid() {
      mutex.semaphore != allocator.state.mtx
    }

    /** The region as allocator calls see it. */
    function Space(): Region
      reads allocator.state
    {
      allocator.state.View()
    }

    constructor (allocator: ShmemAllocator, mutex: SemaphoreMutex)
      ensures nodes == map[] && this.allocator == allocator && this.mutex == mutex
    {
      this.allocator, this.mutex := allocator, mutex;
      nodes := map[];
    }

    /** Without memory for a new node nothing changes; on every return the mutex is
        released. The call waits if the mutex is taken, or, holding it, if a new key
        finds the allocator taken; then nothing has changed yet. */
    method InsertOrAssign(key: Key, value: Value) returns (r: Outcome<Reply>)
      requires Valid()
      modifies this`nodes, mutex.semaphore, allocator.state, allocator.state.mtx
      ensures r.Waits? <==>
        old(mutex.semaphore.value) == 0 || (key !in old(nodes) && old(allocator.state.mtx.value) == 0)
      ensures r.Waits? ==> nodes == old(nodes) && Space() == old(Space())
      ensures r.Returns? ==> Does(old(nodes), old(Space()), allocator.unit, Insert(key, value), r.value, nodes, Space())
      ensures r.Returns? ==>
        if key !in old(nodes) && old(Space().start) + allocator.unit > old(Space().end)
        then r.value == NoMemory && nodes == old(nodes)
        else r.value == Stored && key in nodes && nodes[key].value == value && nodes - {key} == old(nodes) - {key}
      ensures mutex.semaphore.value == old(mutex.semaphore.value) -
        (if r.Waits? && old(mutex.semaphore.value) > 0 then 1 else 0)
      ensures allocator.state.mtx.value == old(allocator.state.mtx.value)
    {
      var entered := mutex.Lock();
      if !entered {
        return Waits;
      }
      if key in nodes {
        nodes := nodes[key := nodes[key].(value := value)];
        r := Returns(Stored);
      } else {
        var p := allocator.Allocate(1);
        match p {
          case Waits =>
            return Waits;
          case Returns(Some(address)) =>
            nodes := nodes[key := Node(value, address)];
            r := Returns(Stored);
          case Returns(None) =>
            r := Returns(NoMemory);
        }
      }
      mutex.Unlock();
    }

    /** The call waits if the mutex is taken, or, holding it and with the node unlinked,
        if the allocator is. */
    method Erase(key: Key) returns (r: Outcome<Reply>)
      requires Valid()
      modifies this`nodes, mutex.semaphore, allocator.state, allocator.state.mtx
      ensures r.Waits? <==>
        old(mutex.semaphore.value) == 0 || (key in old(nodes) && old(allocator.state.mtx.value) == 0)
      ensures r.Waits? ==> Space() == old(Space())
      ensures r.Waits? ==> nodes == if old(mutex.semaphore.value) == 0 then old(nodes) else old(nodes) - {key}
      ensures r.Returns? ==> Does(old(nodes), old(Space()), allocator.unit, Op.Erase(key), r.value, nodes, Space())
      ensures r.Returns? ==> r.value == Count(if key in old(nodes) then 1 else 0) && nodes == old(nodes) - {key}
      ensures mutex.semaphore.value == old(mutex.semaphore.value) -
        (if r.Waits? && old(mutex.semaphore.value) > 0 then 1 else 0)
      ensures allocator.state.mtx.value == old(allocator.state.mtx.value)
    {
      var entered := mutex.Lock();
      if !entered {
        return Waits;
      }
      if key in nodes {
        var node := nodes[key];
        nodes := nodes - {key};
        var freed := allocator.Deallocate(node.addr, 1);
        if freed.Waits? {
          return Waits;
        }
        r := Returns(Count(1));
      } else {
        r := Returns(Count(0));
      }
      mutex.Unlock();
    }

    /** Missing when out_of_range is thrown; the mutex is released either way. */
    method At(key: Key) returns (r: Outcome<Reply>)
      requires Valid()
      modifies mutex.semaphore
      ensures r.Waits? <==> old(mutex.semaphore.value) == 0
      ensures nodes == old(nodes) && Space() == old(Space())
      ensures r.Returns? ==> Does(nodes, old(Space()), allocator.unit, Op.At(key), r.value, nodes, Space())
      ensures r.Returns? ==> r.value == if key in nodes then Found(nodes[key].value) else Missing
      ensures mutex.semaphore.value == old(mutex.semaphore.value)
    {
      var entered := mutex.Lock();
      if !entered {
        return Waits;
      }
      r := Returns(if key in nodes then Found(nodes[key].value) else Missing);
      mutex.Unlock();
    }
  }

  /** Shared memory and a map in it, as a program sets them up: None when there is no
      room for the mutex or the map. */
  method SetUp(address: nat, size: nat, header: nat, semaphore: nat, container: nat, node: nat)
      returns (m: Option<ShmemMap>)
    ensures m.Some? <==> header + semaphore + container <= size
    ensures m.Some? ==> m.value.Valid() && m.value.mutex.semaphore.value == 1 && m.value.allocator.state.mtx.value == 1
    ensures m.Some? ==> m.value.nodes == map[] && m.value.allocator.unit == node
    ensures m.Some? ==> m.value.Space() == Region(address + header + semaphore + container, address + size)
  {
    var state := new ShmemAllocatorState(address, size, header);
    var semaphores := new ShmemAllocator(state, semaphore);
    var first := semaphores.Allocate(1);
    if first.value.None? {
      return None;
    }
    var mutex := new SemaphoreMutex(first.value.value);
    var containers := new ShmemAllocator(state, container);
    var second := containers.Allocate(1);
    if second.value.None? {
      return None;
    }
    var nodes := new ShmemAllocator(state, node);
    var shared := new ShmemMap(nodes, mutex);
    return Some(shared);
  }
}
