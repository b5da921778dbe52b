/** The sparse index over a sorted file of records, src/file/Index.cpp, and the search
    in the block it names, getData in src/file/DbServer.cpp. */
module Index {
  import opened Text

  type Key = nat

  datatype Record = Record(key: Key, data: string)

  /** An entry of std::map<Key, std::size_t>, which is kept as its entries in order. */
  datatype Entry = Entry(key: Key, offset: nat)

  predicate Ascending(db: seq<Record>) {
    forall i, j :: 0 <= i < j < |db| ==> db[i].key < db[j].key
  }

  predicate Ordered(entries: seq<Entry>) {
    forall i, j :: 0 <= i < j < |entries| ==> entries[i].key < entries[j].key
  }

  /** The first entry whose key is greater than key: upper_bound. */
  function UpperBound(entries: seq<Entry>, key: Key): (u: nat)
    requires Ordered(entries)
    ensures u <= |entries|
    ensures forall i :: 0 <= i < u ==> entries[i].key <= key
    ensures forall i :: u <= i < |entries| ==> key < entries[i].key
  {
    if entries == [] || key < entries[0].key then 0
    else
      var u := UpperBound(entries[1..], key);
      assert forall i :: 0 < i < |entries| ==> entries[i] == entries[1..][i - 1];
      u + 1
  }

  lemma Inserted(entries: seq<Entry>, u: nat, e: Entry)
    requires Ordered(entries) && u <= |entries|
    requires forall i :: 0 <= i < u ==> entries[i].key < e.key
    requires forall i :: u <= i < |entries| ==> e.key < entries[i].key
    ensures Ordered(entries[..u] + [e] + entries[u..])
    ensures forall x :: x in entries[..u] + [e] + entries[u..] <==> x in entries || x == e
  {
    forall x | x in entries ensures x in entries[..u] + [e] + entries[u..] {
      assert x in entries[..u] || x in entries[u..];
    }
  }

  /** emplace does nothing when the key is there already. */
  function Emplaced(entries: seq<Entry>, e: Entry): (r: seq<Entry>)
    requires Ordered(entries)
    ensures Ordered(r)
    ensures forall x :: x in r <==> x in entries || (x == e && forall y | y in entries :: y.key != e.key)
  {
    var u := UpperBound(entries, e.key);
    if u > 0 && entries[u - 1].key == e.key then
      assert entries[u - 1] in entries;
      entries
    else
      Inserted(entries, u, e);
      entries[..u] + [e] + entries[u..]
  }

  lemma EmplacedLast(entries: seq<Entry>, e: Entry)
    requires Ordered(entries) && forall i :: 0 <= i < |entries| ==> entries[i].key < e.key
    ensures Emplaced(entries, e) == entries + [e]
  {
    assert entries == [] || entries[|entries| - 1].key < e.key;
    assert entries[..|entries|] == entries && entries[|entries|..] == [];
  }

  // -------------------------------------------------------------- the index

  /** An entry for every step-th record below upto. */
  predicate Samples(entries: seq<Entry>, db: seq<Record>, step: nat, upto: nat) {
    && (forall i :: 0 <= i < |entries| ==> entries[i].offset < |db| && entries[i].key == db[entries[i].offset].key)
    && (forall i :: 0 < i < |entries| ==> entries[i].offset == entries[i - 1].offset + step)
    && (if entries == [] then upto == 0 else entries[0].offset == 0 && upto == entries[|entries| - 1].offset + step)
  }

  /** What the constructor builds: the samples, and one entry past the end for the last
      key unless that is divisible by step or a sample already. */
  predicate Built(entries: seq<Entry>, db: seq<Record>, step: nat) {
    && db != [] && entries != []
    && var n := |entries| - 1;
       var last := db[|db| - 1].key;
       || (Samples(entries, db, step, entries[n].offset + step) && |db| <= entries[n].offset + step &&
           (last % step == 0 || entries[n].offset == |db| - 1))
       || (n > 0 && Samples(entries[..n], db, step, entries[n - 1].offset + step) &&
           |db| <= entries[n - 1].offset + step &&
           last % step != 0 && entries[n - 1].offset != |db| - 1 && entries[n] == Entry(last, |db|))
  }

  lemma {:induction false} SamplesBelow(entries: seq<Entry>, db: seq<Record>, step: nat, upto: nat, i: nat, j: nat)
    requires Samples(entries, db, step, upto) && step > 0 && i <= j < |entries|
    ensures entries[i].offset + (j - i) <= entries[j].offset < upto
    decreases j
  {
    if i < j {
      SamplesBelow(entries, db, step, upto, i, j - 1);
    }
    SamplesEnd(entries, db, step, upto, j);
  }

  lemma {:induction false} SamplesEnd(entries: seq<Entry>, db: seq<Record>, step: nat, upto: nat, j: nat)
    requires Samples(entries, db, step, upto) && step > 0 && j < |entries|
    ensures entries[j].offset < upto
    decreases |entries| - j
  {
    if j < |entries| - 1 {
      SamplesEnd(entries, db, step, upto, j + 1);
      assert entries[j + 1].offset == entries[j].offset + step;
    }
  }

  lemma SamplesOrdered(entries: seq<Entry>, db: seq<Record>, step: nat, upto: nat)
    requires Samples(entries, db, step, upto) && step > 0 && Ascending(db)
    ensures Ordered(entries)
  {
    forall i, j | 0 <= i < j < |entries| ensures entries[i].key < entries[j].key {
      SamplesBelow(entries, db, step, upto, i, j);
    }
  }

  lemma SamplesMore(entries: seq<Entry>, db: seq<Record>, step: nat, upto: nat)
    requires Samples(entries, db, step, upto) && step > 0 && upto < |db| && Ascending(db)
    ensures Ordered(entries) && Emplaced(entries, Entry(db[upto].key, upto)) == entries + [Entry(db[upto].key, upto)]
    ensures Samples(entries + [Entry(db[upto].key, upto)], db, step, upto + step)
  {
    SamplesOrdered(entries, db, step, upto);
    forall i | 0 <= i < |entries| ensures entries[i].key < db[upto].key {
      SamplesEnd(entries, db, step, upto, i);
    }
    EmplacedLast(entries, Entry(db[upto].key, upto));
  }

  datatype Interval = OutOfBounds | PastEnd | Between(start: nat, end: nat)

  class Index {
    var index: seq<Entry>

    constructor (db: seq<Record>, step: nat)
      requires db != [] && step > 0 && Ascending(db)
      ensures Built(index, db, step)
    {
      hide Samples, Ordered, Emplaced, Ascending, Built;
      index := [];
      new;
      var i := 0;
      NoSamples(db, step);
      while i < |db|
        invariant Samples(index, db, step, i)
        decreases |db| - i
      {
        SamplesMore(index, db, step, i);
        index := Emplaced(index, Entry(db[i].key, i));
        i := i + step;
      }
      var lastKey := db[|db| - 1].key;
      SamplesOrdered(index, db, step, i);
      if lastKey % step != 0 {
        EndEntry(index, db, step, i);
        index := Emplaced(index, Entry(lastKey, |db|));
      } else {
        NoEndEntry(index, db, step, i);
      }
    }
  }

  /** PastEnd where end() is dereferenced. */
  function GetInterval(entries: seq<Entry>, key: Key): Interval
    requires entries != [] && Ordered(entries)
  {
    if key < entries[0].key || key > entries[|entries| - 1].key then OutOfBounds
    else
      var u := UpperBound(entries, key);
      if u == |entries| then PastEnd else Between(entries[u - 1].offset, entries[u].offset)
  }

  lemma NoSamples(db: seq<Record>, step: nat)
    ensures Samples([], db, step, 0)
  {
  }

  lemma NoEndEntry(entries: seq<Entry>, db: seq<Record>, step: nat, upto: nat)
    requires Samples(entries, db, step, upto) && db != [] && |db| <= upto && db[|db| - 1].key % step == 0
    requires step > 0
    ensures Built(entries, db, step)
  {
    SamplesUpto(entries, db, step, upto);
  }

  lemma SampledTwice(entries: seq<Entry>, e: Entry)
    requires Ordered(entries) && entries != [] && entries[|entries| - 1].key == e.key
    ensures Emplaced(entries, e) == entries
  {
    assert UpperBound(entries, e.key) == |entries|;
  }

  /** The last emplace. */
  lemma EndEntry(entries: seq<Entry>, db: seq<Record>, step: nat, upto: nat)
    requires Samples(entries, db, step, upto) && step > 0 && db != [] && |db| <= upto && Ascending(db)
    requires db[|db| - 1].key % step != 0
    ensures Ordered(entries) && Built(Emplaced(entries, Entry(db[|db| - 1].key, |db|)), db, step)
  {
    hide Emplaced, Ordered;
    SamplesOrdered(entries, db, step, upto);
    var n, last := |entries| - 1, db[|db| - 1].key;
    if entries[n].offset == |db| - 1 {
      SampledTwice(entries, Entry(last, |db|));
    } else {
      forall i | 0 <= i < |entries| ensures entries[i].key < last {
        SamplesBelow(entries, db, step, upto, i, n);
      }
      EmplacedLast(entries, Entry(last, |db|));
      WithEnd(entries, db, step, upto);
    }
  }

  lemma WithEnd(entries: seq<Entry>, db: seq<Record>, step: nat, upto: nat)
    requires Samples(entries, db, step, upto) && db != [] && |db| <= upto && entries != []
    requires db[|db| - 1].key % step != 0 && entries[|entries| - 1].offset != |db| - 1 && step > 0
    ensures Built(entries + [Entry(db[|db| - 1].key, |db|)], db, step)
  {
    hide Samples;
    var r := entries + [Entry(db[|db| - 1].key, |db|)];
    assert r[..|r| - 1] == entries;
    SamplesUpto(entries, db, step, upto);
  }

  lemma SamplesUpto(entries: seq<Entry>, db: seq<Record>, step: nat, upto: nat)
    requires Samples(entries, db, step, upto) && (entries != [] || upto > 0)
    ensures entries != [] && upto == entries[|entries| - 1].offset + step
  {
  }

  // ------------------------------------------------------------- bracketing

  /** The greatest key that the index knows. */
  function Greatest(entries: seq<Entry>): Key
    requires entries != []
  {
    entries[|entries| - 1].key
  }

  lemma BuiltOrdered(entries: seq<Entry>, db: seq<Record>, step: nat)
    requires Built(entries, db, step) && step > 0 && Ascending(db)
    ensures Ordered(entries) && entries[0] == Entry(db[0].key, 0)
  {
    hide Ordered;
    var n := |entries| - 1;
    if n > 0 && Samples(entries[..n], db, step, entries[n - 1].offset + step)
      && entries[n] == Entry(db[|db| - 1].key, |db|)
    {
      SamplesOrdered(entries[..n], db, step, entries[n - 1].offset + step);
      forall i | 0 <= i < n ensures entries[i].key < entries[n].key {
        SamplesBelow(entries[..n], db, step, entries[n - 1].offset + step, i, n - 1);
      }
      OneAbove(entries, n);
    } else {
      SamplesOrdered(entries, db, step, entries[n].offset + step);
    }
  }

  lemma OneAbove(entries: seq<Entry>, n: nat)
    requires n + 1 == |entries| && Ordered(entries[..n]) && forall i :: 0 <= i < n ==> entries[i].key < entries[n].key
    ensures Ordered(entries)
  {
    forall i, j | 0 <= i < j < |entries| ensures entries[i].key < entries[j].key {
      if j < n {
        assert entries[..n][i].key < entries[..n][j].key;
      }
    }
  }

  /** Two neighbouring entries of the index are at most a step apart. */
  lemma Neighbours(entries: seq<Entry>, db: seq<Record>, step: nat, u: nat)
    requires Built(entries, db, step) && step > 0 && Ascending(db) && 0 < u < |entries|
    ensures var a, b := entries[u - 1].offset, entries[u].offset;
            && a < b <= a + step && b <= |db| && a < |db| && db[a].key == entries[u - 1].key
            && forall i | b <= i < |db| :: db[i].key >= entries[u].key
  {
    hide Samples;
    var n := |entries| - 1;
    if Samples(entries, db, step, entries[n].offset + step) {
      SampledPair(entries, db, step, entries[n].offset + step, u);
    } else {
      assert n > 0 && Samples(entries[..n], db, step, entries[n - 1].offset + step);
      assert entries[..n][u - 1] == entries[u - 1];
      if u < n {
        SampledPair(entries[..n], db, step, entries[n - 1].offset + step, u);
        assert entries[..n][u] == entries[u];
      } else {
        SampledLast(entries[..n], db, step, entries[n - 1].offset + step);
      }
    }
  }

  lemma SampledPair(entries: seq<Entry>, db: seq<Record>, step: nat, upto: nat, u: nat)
    requires Samples(entries, db, step, upto) && step > 0 && Ascending(db) && 0 < u < |entries|
    ensures var a, b := entries[u - 1].offset, entries[u].offset;
            && b == a + step && b < |db| && db[a].key == entries[u - 1].key
            && forall i | b <= i < |db| :: db[i].key >= entries[u].key
  {
  }

  lemma SampledLast(entries: seq<Entry>, db: seq<Record>, step: nat, upto: nat)
    requires Samples(entries, db, step, upto) && entries != []
    ensures var last := entries[|entries| - 1]; last.offset < |db| && last.key == db[last.offset].key
  {
  }

  /** For a key from the first up to, but not including, the greatest of the index, the
      interval is one block, the key is not before it and every record after it has a
      greater key. */
  lemma Brackets(entries: seq<Entry>, db: seq<Record>, step: nat, key: Key)
    requires Built(entries, db, step) && step > 0 && Ascending(db)
    requires db[0].key <= key < Greatest(entries)
    ensures Ordered(entries) && GetInterval(entries, key).Between?
    ensures var Between(a, b) := GetInterval(entries, key);
            && a < b <= a + step && b <= |db| && db[a].key <= key
            && forall i | b <= i < |db| :: key < db[i].key
  {
    BuiltOrdered(entries, db, step);
    hide Built, Ordered;
    var u := UpperBound(entries, key);
    Neighbours(entries, db, step, u);
  }

  // ----------------------------------------------------------------- lookup

  /** std::lower_bound over [a, b) */
  function LowerBound(db: seq<Record>, a: nat, b: nat, key: Key): (r: nat)
    requires a <= b <= |db| && Ascending(db)
    ensures a <= r <= b
    ensures forall i :: a <= i < r ==> db[i].key < key
    ensures forall i :: r <= i < b ==> key <= db[i].key
    decreases b - a
  {
    if a == b then a
    else
      var mid := a + (b - a) / 2;
      if db[mid].key < key then LowerBound(db, mid + 1, b, key) else LowerBound(db, a, mid, key)
  }

  datatype Lookup = Answer(data: Option<string>) | Undefined

  /** getData */
  function GetData(db: seq<Record>, entries: seq<Entry>, key: Key): Lookup
    requires Ascending(db) && entries != [] && Ordered(entries)
    requires forall e | e in entries :: e.offset <= |db|
  {
    match GetInterval(entries, key)
    case OutOfBounds => Answer(None)
    case PastEnd => Undefined
    case Between(a, b) =>
      if b < a then Undefined
      else
        var it := LowerBound(db, a, b, key);
        if it == |db| || db[it].key != key then Answer(None) else Answer(Some(db[it].data))
  }

  /** Linear search of the whole array. */
  function Scan(db: seq<Record>, key: Key): Option<string> {
    if db == [] then None
    else if db[0].key == key then Some(db[0].data)
    else Scan(db[1..], key)
  }

  predicate Present(db: seq<Record>, key: Key) {
    exists i :: 0 <= i < |db| && db[i].key == key
  }

  lemma {:induction false} ScanFinds(db: seq<Record>, i: nat, key: Key)
    requires Ascending(db) && i < |db| && db[i].key == key
    ensures Scan(db, key) == Some(db[i].data)
    decreases i
  {
    if i > 0 {
      assert db[0].key < db[i].key;
      ScanFinds(db[1..], i - 1, key);
    }
  }

  lemma {:induction false} ScanMisses(db: seq<Record>, key: Key)
    requires !Present(db, key)
    ensures Scan(db, key) == None
    decreases |db|
  {
    if db != [] {
      forall i | 0 <= i < |db[1..]| ensures db[1..][i].key != key {
        assert db[i + 1].key != key;
      }
      ScanMisses(db[1..], key);
    }
  }

  lemma BuiltOffsets(entries: seq<Entry>, db: seq<Record>, step: nat)
    requires Built(entries, db, step) && step > 0 && Ascending(db)
    ensures forall e | e in entries :: e.offset <= |db|
  {
    forall e | e in entries ensures e.offset <= |db| {
      var u :| 0 <= u < |entries| && entries[u] == e;
      if u > 0 {
        Neighbours(entries, db, step, u);
      } else {
        BuiltOrdered(entries, db, step);
      }
    }
  }

  lemma LookupBetween(db: seq<Record>, entries: seq<Entry>, step: nat, key: Key)
    requires Built(entries, db, step) && step > 0 && Ascending(db) && Ordered(entries)
    requires forall e | e in entries :: e.offset <= |db|
    requires db[0].key <= key < Greatest(entries)
    ensures GetData(db, entries, key) == Answer(Scan(db, key))
  {
    Brackets(entries, db, step, key);
    hide Built, Ordered, GetInterval;
    var Between(a, b) := GetInterval(entries, key);
    var it := LowerBound(db, a, b, key);
    if it < |db| && db[it].key == key {
      ScanFinds(db, it, key);
    } else {
      Absent(db, a, b, it, key);
      ScanMisses(db, key);
    }
  }

  lemma Absent(db: seq<Record>, a: nat, b: nat, it: nat, key: Key)
    requires Ascending(db) && a < b <= |db| && a <= it <= b && db[a].key <= key
    requires forall i | b <= i < |db| :: key < db[i].key
    requires forall i :: a <= i < it ==> db[i].key < key
    requires forall i :: it <= i < b ==> key <= db[i].key
    requires it == |db| || db[it].key != key
    ensures !Present(db, key)
  {
    forall i | 0 <= i < |db| ensures db[i].key != key {
      if i > it && it < b {
        assert db[it].key < db[i].key;
      }
      if i < a {
        assert db[i].key < db[a].key;
      }
    }
  }

  /** Lookup, exactly: for an index built over a non-empty ascending file, getData is
      undefined for the greatest key of the index, finds nothing beyond it, and below
      it is a linear search of the whole file. So it is correct if and only if the key
      is smaller than that key, or greater and absent. */
  lemma LookupExact(db: seq<Record>, entries: seq<Entry>, step: nat, key: Key)
    requires Built(entries, db, step) && step > 0 && Ascending(db)
    ensures entries != [] && Ordered(entries) && forall e | e in entries :: e.offset <= |db|
    ensures var g, r := Greatest(entries), GetData(db, entries, key);
            && (key == g ==> r == Undefined)
            && (key > g ==> r == Answer(None))
            && (key < g ==> r == Answer(Scan(db, key)))
            && (r == Answer(Scan(db, key)) <==> key < g || (key > g && !Present(db, key)))
  {
    BuiltOrdered(entries, db, step);
    BuiltOffsets(entries, db, step);
    hide Built, Present;
    if key < db[0].key {
      BelowFirst(db, key);
      ScanMisses(db, key);
    } else if key < Greatest(entries) {
      LookupBetween(db, entries, step, key);
    } else if key > Greatest(entries) {
      if Present(db, key) {
        var i := Where(db, key);
        ScanFinds(db, i, key);
      } else {
        ScanMisses(db, key);
      }
    } else {
      assert UpperBound(entries, key) == |entries|;
    }
  }

  lemma BelowFirst(db: seq<Record>, key: Key)
    requires Ascending(db) && db != [] && key < db[0].key
    ensures !Present(db, key)
  {
    forall i | 0 <= i < |db| ensures db[i].key != key {
      assert i > 0 ==> db[0].key < db[i].key;
    }
  }

  lemma Where(db: seq<Record>, key: Key) returns (i: nat)
    requires Present(db, key)
    ensures i < |db| && db[i].key == key
  {
    i :| 0 <= i < |db| && db[i].key == key;
  }

  /** When the last key is not divisible by the step, every other key is looked up
      correctly. */
  lemma LookupAllButLast(db: seq<Record>, entries: seq<Entry>, step: nat, key: Key)
    requires Built(entries, db, step) && step > 0 && Ascending(db)
    requires db[|db| - 1].key % step != 0 && key != db[|db| - 1].key
    ensures Ordered(entries) && (forall e | e in entries :: e.offset <= |db|)
    ensures GetData(db, entries, key) == Answer(Scan(db, key))
  {
    LookupExact(db, entries, step, key);
    GreatestIsLast(db, entries, step);
    if key > db[|db| - 1].key {
      forall i | 0 <= i < |db| ensures db[i].key != key {
        assert i < |db| - 1 ==> db[i].key < db[|db| - 1].key;
      }
    }
  }

  lemma GreatestIsLast(db: seq<Record>, entries: seq<Entry>, step: nat)
    requires Built(entries, db, step) && step > 0 && db[|db| - 1].key % step != 0
    ensures Greatest(entries) == db[|db| - 1].key
  {
  }

  // ----------------------------------------------------------- two examples

  function Numbered(n: nat): seq<Record> {
    seq(n, i requires 0 <= i < n => Record(i, "x"))
  }

  /** Keys 0, 1, 2 with a step of 2: the last key is the index's greatest, and looking it
      up dereferences the end of the index. */
  lemma LastKeyUndefined(entries: seq<Entry>)
    requires Built(entries, Numbered(3), 2)
    ensures Ordered(entries) && (forall e | e in entries :: e.offset <= 3)
    ensures Present(Numbered(3), 2) && GetData(Numbered(3), entries, 2) == Undefined
  {
    LookupExact(Numbered(3), entries, 2, 2);
    SmallIndex(entries, Numbered(3));
    assert Numbered(3)[2].key == 2;
  }

  /** Keys 0, 2 with a step of 2: 2 is divisible by the step, so the index ends at 0 and
      the record 2 is not found. */
  lemma LastKeyMissed(entries: seq<Entry>)
    requires Built(entries, [Record(0, "x"), Record(2, "y")], 2)
    ensures Ordered(entries) && (forall e | e in entries :: e.offset <= 2)
    ensures GetData([Record(0, "x"), Record(2, "y")], entries, 2) == Answer(None)
    ensures Scan([Record(0, "x"), Record(2, "y")], 2) == Some("y")
  {
    var db := [Record(0, "x"), Record(2, "y")];
    LookupExact(db, entries, 2, 2);
    SmallIndex(entries, db);
    ScanFinds(db, 1, 2);
  }

  lemma SmallIndex(entries: seq<Entry>, db: seq<Record>)
    requires Built(entries, db, 2) && 2 <= |db| <= 3 && db[|db| - 1].key == 2
    ensures Greatest(entries) == if |db| == 3 then 2 else db[0].key
  {
    var n := |entries| - 1;
    if n > 0 {
      assert entries[n].offset == entries[n - 1].offset + 2;
      assert entries[n].offset < |db|;
      assert n > 1 ==> entries[n - 1].offset == entries[n - 2].offset + 2;
    }
  }

  // -------------------------------------------------------------- generator

  /** What the random numbers of one round of test/generate.cpp decide. */
  datatype Draw = Skip(count: nat) | Emit(padding: string)

  function KeyAfter(draws: seq<Draw>): Key
    decreases |draws|
  {
    if draws == [] then 0
    else
      KeyAfter(draws[..|draws| - 1]) +
      match draws[|draws| - 1] case Skip(count) => count case Emit(_) => 1
  }

  function Emitted(draws: seq<Draw>): seq<Record>
    decreases |draws|
  {
    if draws == [] then []
    else
      var key := KeyAfter(draws[..|draws| - 1]);
      Emitted(draws[..|draws| - 1]) +
      match draws[|draws| - 1] case Skip(_) => [] case Emit(padding) => [Record(key, Decimal(key) + padding)]
  }

  /** The loop that writes the file. */
  method Generate(elements: nat, draws: seq<Draw>) returns (out: seq<Record>, key: Key, used: nat)
    ensures used <= |draws| && |out| <= elements && (|out| == elements || used == |draws|)
    ensures out == Emitted(draws[..used]) && key == KeyAfter(draws[..used])
  {
    out, key, used := [], 0, 0;
    while |out| < elements && used < |draws|
      invariant used <= |draws| && |out| <= elements
      invariant out == Emitted(draws[..used]) && key == KeyAfter(draws[..used])
    {
      assert draws[..used + 1][..used] == draws[..used];
      match draws[used] {
        case Skip(count) =>
          key := key + count;
        case Emit(padding) =>
          out := out + [Record(key, Decimal(key) + padding)];
          key := key + 1;
      }
      used := used + 1;
    }
  }

  lemma {:induction false} EmittedAscending(draws: seq<Draw>)
    ensures Ascending(Emitted(draws))
    ensures forall i :: 0 <= i < |Emitted(draws)| ==> Emitted(draws)[i].key < KeyAfter(draws)
    decreases |draws|
  {
    hide Decimal;
    if draws != [] {
      EmittedAscending(draws[..|draws| - 1]);
    }
  }

  /** Each draw that emits writes a record with the next key, its digits and the
      padding. */
  lemma {:induction false} EmittedExact(draws: seq<Draw>, i: nat)
    requires i < |draws| && draws[i].Emit?
    ensures var key := KeyAfter(draws[..i]); Record(key, Decimal(key) + draws[i].padding) in Emitted(draws)
    decreases |draws|
  {
    hide Decimal, KeyAfter;
    var init := draws[..|draws| - 1];
    if i < |draws| - 1 {
      EmittedExact(init, i);
      assert init[..i] == draws[..i];
    }
  }

  function Skipped(draws: seq<Draw>): nat
    decreases |draws|
  {
    if draws == [] then 0
    else (match draws[0] case Skip(count) => count case Emit(_) => 0) + Skipped(draws[1..])
  }

  lemma {:induction false} SkippedMore(draws: seq<Draw>, d: Draw)
    ensures Skipped(draws + [d]) == Skipped(draws) + match d case Skip(count) => count case Emit(_) => 0
    decreases |draws|
  {
    if draws == [] {
      assert draws + [d] == [d];
    } else {
      assert (draws + [d])[1..] == draws[1..] + [d];
      SkippedMore(draws[1..], d);
    }
  }

  /** The keys that the file leaves out below the next key are those skipped. */
  lemma {:induction false} KeysLeftOut(draws: seq<Draw>)
    ensures KeyAfter(draws) == |Emitted(draws)| + Skipped(draws)
    decreases |draws|
  {
    hide Decimal;
    if draws != [] {
      var n := |draws| - 1;
      KeysLeftOut(draws[..n]);
      SkippedMore(draws[..n], draws[n]);
      assert draws == draws[..n] + [draws[n]];
    }
  }

  /** On whatever the generator writes, every key but the last is looked up as by a
      linear search, unless the last one is divisible by the step. */
  lemma GeneratedLookup(draws: seq<Draw>, entries: seq<Entry>, step: nat, key: Key)
    requires step > 0 && Built(entries, Emitted(draws), step)
    requires var db := Emitted(draws); db[|db| - 1].key % step != 0 && key != db[|db| - 1].key
    ensures Ascending(Emitted(draws)) && Ordered(entries) && forall e | e in entries :: e.offset <= |Emitted(draws)|
    ensures GetData(Emitted(draws), entries, key) == Answer(Scan(Emitted(draws), key))
  {
    EmittedAscending(draws);
    LookupAllButLast(Emitted(draws), entries, step, key);
  }
}
