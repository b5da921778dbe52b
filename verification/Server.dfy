/** The round-robin distribution of accepted sockets in src/http/Server.cpp. */
module Server {
  import opened Text

  /** What accept4 returns. */
  datatype Accepted = Interrupted | WouldBlock | Failed | Socket(fd: int)

  /** Whose turn it is: the counter is a std::size_t. */
  function Turn(n: nat, k: nat): nat
    requires k > 0
  {
    (n % TWO_64) % k
  }

  /** The sockets that worker w of k gets when these are accepted in this order. */
  function Share(fds: seq<int>, k: nat, w: nat): seq<int>
    requires k > 0
    decreases |fds|
  {
    if fds == [] then []
    else
      var n := |fds| - 1;
      Share(fds[..n], k, w) + if Turn(n, k) == w then [fds[n]] else []
  }

  /** How many of n sockets worker w gets when they are dealt out evenly. */
  function Even(n: nat, k: nat, w: nat): nat
    requires k > 0
  {
    n / k + if w < n % k then 1 else 0
  }

  lemma EvenStep(n: nat, k: nat, w: nat)
    requires k > 0 && w < k
    ensures Even(n + 1, k, w) == Even(n, k, w) + if n % k == w then 1 else 0
  {
    var q, r := n / k, n % k;
    assert n == q * k + r;
    if r + 1 < k {
      Divided(n + 1, k, q, r + 1);
    } else {
      assert n + 1 == (q + 1) * k + 0;
      Divided(n + 1, k, q + 1, 0);
    }
  }

  lemma Divided(n: nat, k: nat, q: nat, r: nat)
    requires k > 0 && n == q * k + r && r < k
    ensures n / k == q && n % k == r
  {
    var d := n / k - q;
    assert n == (n / k) * k + n % k;
    assert d * k == r - n % k by {
      assert (n / k) * k == (d + q) * k == d * k + q * k;
    }
    SmallMultiple(d, k);
  }

  lemma SmallMultiple(d: int, k: int)
    requires k > 0 && -k < d * k < k
    ensures d == 0
  {
    assert d >= 1 ==> d * k >= k;
    assert d <= -1 ==> d * k <= -k;
  }

  lemma ShareStep(fds: seq<int>, fd: int, k: nat, w: nat)
    requires k > 0
    ensures Share(fds + [fd], k, w) == Share(fds, k, w) + if Turn(|fds|, k) == w then [fd] else []
  {
    hide Turn;
    assert (fds + [fd])[..|fds|] == fds;
  }

  /** Balance: after any number of accepts before the counter wraps, each of the k
      workers has the floor or the ceiling of their k-th part. */
  lemma {:induction false} Balanced(fds: seq<int>, k: nat, w: nat)
    requires k > 0 && w < k && |fds| <= TWO_64
    ensures |Share(fds, k, w)| == Even(|fds|, k, w)
    decreases |fds|
  {
    hide Even, Turn;
    if fds == [] {
      NoneYet(k, w);
    } else {
      var n := |fds| - 1;
      Balanced(fds[..n], k, w);
      EvenStep(n, k, w);
      NotWrapped(n, k);
    }
  }

  lemma NotWrapped(n: nat, k: nat)
    requires k > 0 && n < TWO_64
    ensures Turn(n, k) == n % k
  {
  }

  lemma NoneYet(k: nat, w: nat)
    requires k > 0 && w < k
    ensures Even(0, k, w) == 0
  {
    Divided(0, k, 0, 0);
  }

  /** Everything that the first m workers got. */
  function Together(fds: seq<int>, k: nat, m: nat): multiset<int>
    requires k > 0
  {
    if m == 0 then multiset{} else Together(fds, k, m - 1) + multiset(Share(fds, k, m - 1))
  }

  lemma {:induction false} TogetherStep(fds: seq<int>, fd: int, k: nat, m: nat)
    requires k > 0
    ensures Together(fds + [fd], k, m) ==
      Together(fds, k, m) + if Turn(|fds|, k) < m then multiset{fd} else multiset{}
    decreases m
  {
    hide Turn, Share;
    if m > 0 {
      TogetherStep(fds, fd, k, m - 1);
      ShareStep(fds, fd, k, m - 1);
    }
  }

  lemma TurnBelow(n: nat, k: nat)
    requires k > 0
    ensures Turn(n, k) < k
  {
  }

  /** Conservation: every accepted socket goes to exactly one worker, even when the
      counter wraps. */
  lemma {:induction false} EachToOne(fds: seq<int>, k: nat)
    requires k > 0
    ensures Together(fds, k, k) == multiset(fds)
    decreases |fds|
  {
    hide Together, Turn, Share;
    if fds == [] {
      NothingShared(k, k);
    } else {
      var n := |fds| - 1;
      EachToOne(fds[..n], k);
      TurnBelow(n, k);
      TogetherStep(fds[..n], fds[n], k, k);
      assert fds == fds[..n] + [fds[n]];
    }
  }

  lemma {:induction false} NothingShared(k: nat, m: nat)
    requires k > 0
    ensures Together([], k, m) == multiset{}
    decreases m
  {
    if m > 0 {
      NothingShared(k, m - 1);
    }
  }

  class Server {
    var loadBalancing: nat
    var workers: seq<seq<int>>
    ghost var accepted: seq<int>

    /** workers are the sockets given to each worker's addClient. */
    ghost predicate Valid()
      reads this
    {
      && |workers| > 0 && loadBalancing == |accepted| % TWO_64
      && forall w :: 0 <= w < |workers| ==> workers[w] == Share(accepted, |workers|, w)
    }

    constructor (count: nat)
      requires count > 0
      ensures Valid() && accepted == [] && |workers| == count
    {
      loadBalancing, workers := 0, seq(count, _ => []);
      accepted := [];
    }

    /** workers[(load_balancing++) % workers.size()].addClient(fd) */
    method Give(fd: int)
      requires Valid()
      modifies this
      ensures Valid() && |workers| == old(|workers|) && accepted == old(accepted) + [fd]
    {
      var w := loadBalancing % |workers|;
      forall v | 0 <= v < |workers|
        ensures Share(accepted + [fd], |workers|, v) == Share(accepted, |workers|, v) + if w == v then [fd] else []
      {
        ShareStep(accepted, fd, |workers|, v);
      }
      workers := workers[w := workers[w] + [fd]];
      loadBalancing := (loadBalancing + 1) % TWO_64;
      accepted := accepted + [fd];
      Counted(|accepted| - 1);
    }

    /** accept4 is tried again after EINTR; false is its exception. */
    method AcceptClient(answers: seq<Accepted>) returns (ok: bool)
      requires Valid()
      modifies this
      ensures Valid() && |workers| == old(|workers|)
      ensures accepted == old(accepted) + First(answers).0 && ok == First(answers).1
      ensures forall n | Decides(answers, n) ::
        && ok == !(n < |answers| && answers[n] == Failed)
        && accepted == old(accepted) + if n < |answers| && answers[n].Socket? then [answers[n].fd] else []
    {
      hide Share;
      forall n | Decides(answers, n) ensures First(answers) == Outcome(answers, n) {
        FirstExact(answers, n);
      }
      var i := 0;
      assert answers[0..] == answers;
      while i < |answers|
        invariant i <= |answers| && First(answers) == First(answers[i..])
        invariant Valid() && workers == old(workers) && accepted == old(accepted)
      {
        assert answers[i..][1..] == answers[i + 1..];
        match answers[i]
        case Interrupted =>
          i := i + 1;
        case WouldBlock =>
          return true;
        case Failed =>
          return false;
        case Socket(fd) =>
          Give(fd);
          return true;
      }
      return true;
    }
  }

  lemma Counted(n: nat)
    ensures (n % TWO_64 + 1) % TWO_64 == (n + 1) % TWO_64
  {
  }

  /** The answer with which acceptClient stops: the first that is not EINTR, or the
      exhaustion of the answers, which is EAGAIN. */
  predicate Decides(answers: seq<Accepted>, n: int) {
    && 0 <= n <= |answers| && (n < |answers| ==> answers[n] != Interrupted)
    && forall i :: 0 <= i < n ==> answers[i] == Interrupted
  }

  /** A socket is given to a worker, a failure is thrown, EAGAIN only returns. */
  function Outcome(answers: seq<Accepted>, n: int): (seq<int>, bool)
    requires Decides(answers, n)
  {
    (if n < |answers| && answers[n].Socket? then [answers[n].fd] else [], !(n < |answers| && answers[n] == Failed))
  }

  lemma {:induction false} FirstExact(answers: seq<Accepted>, n: int)
    requires Decides(answers, n)
    ensures First(answers) == Outcome(answers, n)
    decreases |answers|
  {
    if n > 0 {
      assert Decides(answers[1..], n - 1);
      FirstExact(answers[1..], n - 1);
    }
  }

  /** The socket that acceptClient ends with, if any, and whether it returns. */
  function First(answers: seq<Accepted>): (seq<int>, bool) {
    if answers == [] then ([], true)
    else
      match answers[0]
      case Interrupted => First(answers[1..])
      case WouldBlock => ([], true)
      case Failed => ([], false)
      case Socket(fd) => ([fd], true)
  }
}
