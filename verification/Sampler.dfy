/** The adaptive sampler's indexed priority queue (pkg/sampling/sampler.go), together with the
    sift routines of Go's container/heap that drive it. Scores are reals, times are integers. */
module Sampler {
  import opened Numbers

  // ---------- ranks ----------

  datatype Rank = Ranked(score: real, timestamp: int)

  /** PriorityQueue.Less on two entries. */
  predicate Lower(a: Rank, b: Rank) {
    if a.score == b.score then a.timestamp < b.timestamp else a.score < b.score
  }

  class TraceScore {
    const traceID: string
    var score: real
    var timestamp: int
    var index: int

    constructor (traceID: string, score: real, timestamp: int)
      ensures this.traceID == traceID && Rank() == Ranked(score, timestamp)
    {
      this.traceID, this.score, this.timestamp, this.index := traceID, score, timestamp, 0;
    }

    function Rank(): Rank
      reads `score, `timestamp
    {
      Ranked(score, timestamp)
    }
  }

  // ---------- heap order on the sequence of ranks ----------

  function Parent(i: int): int {
    (i - 1) / 2
  }

  /** Position `c` is not below its parent. */
  predicate Ordered(r: seq<Rank>, c: int)
    requires 0 < c < |r|
  {
    !Lower(r[c], r[Parent(c)])
  }

  predicate IsHeap(r: seq<Rank>, n: int)
    requires n <= |r|
  {
    forall c | 0 < c < n :: Ordered(r, c)
  }

  /** Children of `i` are not below the parent of `i`. */
  predicate Bridged(r: seq<Rank>, i: int, n: int)
    requires n <= |r|
  {
    i > 0 ==> forall c | 0 < c < n && Parent(c) == i :: !Lower(r[c], r[Parent(i)])
  }

  /** Only `i` may be below its parent. */
  predicate HeapButUp(r: seq<Rank>, i: int)
  {
    (forall c | 0 < c < |r| && c != i :: Ordered(r, c)) && Bridged(r, i, |r|)
  }

  /** Only children of `i` may be below `i`, and `i` below its parent if `up`. */
  predicate HeapButDown(r: seq<Rank>, i: int, up: bool, n: int)
    requires n <= |r|
  {
    (forall c | 0 < c < n && Parent(c) != i && (up ==> c != i) :: Ordered(r, c)) && Bridged(r, i, n)
  }

  function Swapped<T>(s: seq<T>, i: int, j: int): seq<T>
    requires 0 <= i < |s| && 0 <= j < |s|
  {
    s[i := s[j]][j := s[i]]
  }

  lemma SwapUp(r: seq<Rank>, j: int)
    requires 0 < j < |r| && HeapButUp(r, j) && Lower(r[j], r[Parent(j)])
    ensures HeapButUp(Swapped(r, Parent(j), j), Parent(j))
  {
    var i := Parent(j);
    var s := Swapped(r, i, j);
    forall c | 0 < c < |r| && c != i ensures Ordered(s, c) {
      if c != j { assert Ordered(r, c); }
    }
    forall c | i > 0 && 0 < c < |r| && Parent(c) == i ensures !Lower(s[c], s[Parent(i)]) {
      assert Ordered(r, i);
      if c != j { assert Ordered(r, c); }
    }
  }

  /** `j` is a child of `i` that no child of `i` is below. */
  predicate LeastChild(r: seq<Rank>, i: int, j: int, n: int)
    requires n <= |r|
  {
    0 < j < n && Parent(j) == i && forall c | 0 < c < n && Parent(c) == i :: !Lower(r[c], r[j])
  }

  lemma SwapDown(r: seq<Rank>, i: int, j: int, up: bool, n: int)
    requires 0 <= i < n <= |r| && HeapButDown(r, i, up, n)
    requires LeastChild(r, i, j, n) && Lower(r[j], r[i])
    ensures HeapButDown(Swapped(r, i, j), j, false, n)
  {
    var s := Swapped(r, i, j);
    forall c | 0 < c < n && Parent(c) != j ensures Ordered(s, c) {
      if Parent(c) != i && c != i { assert Ordered(r, c); }
    }
    forall c | 0 < c < n && Parent(c) == j ensures !Lower(s[c], s[i]) {
      assert Ordered(r, c);
    }
  }

  /** The child that `down` picks is not above the other one. */
  lemma PickedChild(r: seq<Rank>, i: int, j: int, n: int)
    requires 0 <= i && 2 * i + 1 < n <= |r|
    requires j == if 2 * i + 2 < n && Lower(r[2 * i + 2], r[2 * i + 1]) then 2 * i + 2 else 2 * i + 1
    ensures LeastChild(r, i, j, n) && i < j < n
  {}

  /** In order, except that `i` may be below its parent if `up`. */
  predicate HeapExcept(r: seq<Rank>, i: int, up: bool, n: int)
    requires n <= |r|
  {
    forall c | 0 < c < n && (up ==> c != i) :: Ordered(r, c)
  }

  lemma HeapExceptNothing(r: seq<Rank>, i: int, j: int, n: int)
    requires n <= |r|
    ensures HeapExcept(r, i, false, n) <==> HeapExcept(r, j, false, n)
    ensures HeapExcept(r, i, false, n) <==> IsHeap(r, n)
  {}

  lemma DownDone(r: seq<Rank>, i: int, up: bool, n: int)
    requires 0 <= i && n <= |r| && HeapButDown(r, i, up, n)
    requires 2 * i + 1 < n ==> exists j :: LeastChild(r, i, j, n) && !Lower(r[j], r[i])
    ensures HeapExcept(r, i, up, n)
  {
    if 2 * i + 1 < n {
      var j :| LeastChild(r, i, j, n) && !Lower(r[j], r[i]);
    }
  }

  /** The root of a heap is a least element. */
  lemma {:induction false} RootIsLeast(r: seq<Rank>, i: int, n: int)
    requires 0 <= i < n <= |r| && IsHeap(r, n)
    ensures !Lower(r[i], r[0])
  {
    if i > 0 {
      RootIsLeast(r, Parent(i), n);
      assert Ordered(r, i);
    }
  }

  lemma PushedLast(r: seq<Rank>, x: Rank)
    requires IsHeap(r, |r|)
    ensures HeapButUp(r + [x], |r|)
  {
    forall c | 0 < c < |r| ensures Ordered(r + [x], c) {
      assert Ordered(r, c);
    }
  }

  lemma SwappedRoot(r: seq<Rank>)
    requires r != [] && IsHeap(r, |r|)
    ensures HeapButDown(Swapped(r, 0, |r| - 1), 0, false, |r| - 1)
  {
    var s := Swapped(r, 0, |r| - 1);
    forall c | 0 < c < |r| - 1 && Parent(c) != 0 ensures Ordered(s, c) {
      assert Ordered(r, c);
    }
  }

  /** Changing one rank of a heap breaks it only around that position. */
  lemma Rescored(r: seq<Rank>, i: int, x: Rank)
    requires 0 <= i < |r| && IsHeap(r, |r|)
    ensures HeapButDown(r[i := x], i, true, |r|)
  {
    var s := r[i := x];
    forall c | 0 < c < |r| && Parent(c) != i && c != i ensures Ordered(s, c) {
      assert Ordered(r, c);
    }
    forall c | i > 0 && 0 < c < |r| && Parent(c) == i ensures !Lower(s[c], s[Parent(i)]) {
      assert Ordered(r, c) && Ordered(r, i);
    }
  }

  ghost function RanksOf(items: seq<TraceScore>): (r: seq<Rank>)
    reads items`score, items`timestamp
    ensures |r| == |items| && forall i | 0 <= i < |items| :: r[i] == items[i].Rank()
  {
    if items == [] then [] else RanksOf(items[..|items| - 1]) + [items[|items| - 1].Rank()]
  }

  // ---------- the queue ----------

  class PriorityQueue {
    var items: seq<TraceScore>
    ghost var Repr: set<TraceScore>

    constructor ()
      ensures items == [] && Repr == {} && Valid()
    {
      items, Repr := [], {};
    }

    /** Every item knows its position; in particular no item occurs twice. */
    ghost predicate Indexed()
      reads this, Repr
    {
      (forall o <- items :: o in Repr) && forall i | 0 <= i < |items| :: items[i].index == i
    }

    ghost function Ranks(): (r: seq<Rank>)
      reads this, items`score, items`timestamp
      ensures |r| == |items| && forall i | 0 <= i < |items| :: r[i] == items[i].Rank()
    {
      RanksOf(items)
    }

    ghost predicate Valid()
      reads this, Repr
    {
      Indexed() && IsHeap(Ranks(), |items|)
    }

    predicate Less(i: int, j: int)
      requires 0 <= i < |items| && 0 <= j < |items|
      reads this, items
    {
      Lower(items[i].Rank(), items[j].Rank())
    }

    method Swap(i: int, j: int)
      requires 0 <= i < |items| && 0 <= j < |items| && Indexed()
      modifies `items, Repr`index
      ensures items == Swapped(old(items), i, j)
      ensures Indexed() && multiset(items) == multiset(old(items))
      ensures Ranks() == Swapped(old(Ranks()), i, j)
    {
      SwappedItems(items, i, j);
      items := Swapped(items, i, j);
      hide Swapped;
      items[i].index := i;
      items[j].index := j;
    }

    /** Append at the end (heap.Interface Push). */
    method Push(x: TraceScore)
      requires Indexed() && x !in items
      modifies this, x`index
      ensures items == old(items) + [x] && Repr == old(Repr) + {x} && Indexed()
    {
      x.index := |items|;
      items, Repr := items + [x], Repr + {x};
    }

    /** Remove the last item (heap.Interface Pop). */
    method Pop() returns (x: TraceScore)
      requires items != [] && Indexed()
      modifies `items, Repr`index
      ensures old(items) == items + [x] && Ranks() == old(Ranks())[..|items|]
      ensures Indexed() && x.index == -1
    {
      var n := |items|;
      x := items[n - 1];
      items := items[..n - 1];
      x.index := -1;
    }

    // ---------- container/heap ----------

    method Up(j0: int)
      requires 0 <= j0 < |items| && Indexed() && HeapButUp(Ranks(), j0)
      modifies `items, Repr`index
      ensures Valid() && multiset(items) == multiset(old(items))
    {
      var j := j0;
      while true
        invariant 0 <= j < |items| && Indexed() && HeapButUp(Ranks(), j)
        invariant multiset(items) == multiset(old(items))
        decreases j
      {
        // Go divides toward zero, so the root is its own parent here.
        var i := if j == 0 then 0 else Parent(j);
        if i == j || !Less(j, i) {
          return;
        }
        SwapUp(Ranks(), j);
        Swap(i, j);
        j := i;
      }
    }

    /** One round of `down`: swap `i` with its lower child, unless no child is below it. */
    method Sink(i: int, n: int, ghost up: bool) returns (j: int)
      requires 0 <= i && 0 <= n <= |items| && Indexed() && HeapButDown(Ranks(), i, up, n)
      modifies `items, Repr`index
      ensures Indexed() && multiset(items) == multiset(old(items)) && |items| == |old(items)|
      ensures forall k | n <= k < |items| :: items[k] == old(items)[k]
      ensures j == i ==> items == old(items) && HeapExcept(Ranks(), i, up, n)
      ensures j != i ==> i < j < n && HeapButDown(Ranks(), j, false, n)
    {
      hide HeapButDown, HeapExcept, LeastChild, Lower;
      ghost var r := Ranks();
      if 2 * i + 1 >= n {
        DownDone(r, i, up, n);
        return i;
      }
      j := 2 * i + 1;
      if 2 * i + 2 < n && Less(2 * i + 2, j) {
        j := 2 * i + 2;
      }
      PickedChild(r, i, j, n);
      if !Less(j, i) {
        DownDone(r, i, up, n);
        return i;
      }
      SwapDown(r, i, j, up, n);
      Swap(i, j);
    }

    /** Sift `i0` down among the first `n` items; the result says whether it moved. */
    method Down(i0: int, n: int, ghost up: bool) returns (moved: bool)
      requires 0 <= i0 && 0 <= n <= |items| && Indexed() && HeapButDown(Ranks(), i0, up, n)
      modifies `items, Repr`index
      ensures Indexed() && multiset(items) == multiset(old(items))
      ensures |items| == |old(items)| && forall k | n <= k < |items| :: items[k] == old(items)[k]
      ensures HeapExcept(Ranks(), i0, up && !moved, n)
      ensures !moved ==> items == old(items)
    {
      hide HeapButDown, HeapExcept;
      var i := i0;
      while true
        invariant i0 <= i && Indexed() && |items| == |old(items)|
        invariant HeapButDown(Ranks(), i, up && i == i0, n)
        invariant multiset(items) == multiset(old(items))
        invariant forall k | n <= k < |items| :: items[k] == old(items)[k]
        invariant i == i0 ==> items == old(items)
        decreases n - i
      {
        var j := Sink(i, n, up && i == i0);
        if j == i {
          break;
        }
        i := j;
      }
      moved := i > i0;
      HeapExceptNothing(Ranks(), i, i0, n);
    }

    /** Restore the heap after the item at `i` changed its rank. */
    method Fix(i: int)
      requires 0 <= i < |items| && Indexed() && HeapButDown(Ranks(), i, true, |items|)
      modifies `items, Repr`index
      ensures Valid() && multiset(items) == multiset(old(items))
    {
      var moved := Down(i, |items|, true);
      if !moved {
        Up(i);
      }
    }

    /** New score and timestamp for a queued item, then heap.Fix. */
    method Reorder(item: TraceScore, score: real, now: int)
      requires Valid() && item in items
      modifies `items, Repr`index, item
      ensures Valid() && item.Rank() == Ranked(score, now)
      ensures |items| == |old(items)| && forall o :: o in items <==> o in old(items)
    {
      hide IsHeap, HeapButDown;
      ghost var r := Ranks();
      Rescored(r, item.index, Ranked(score, now));
      item.score := score;
      item.timestamp := now;
      assert Ranks() == r[item.index := Ranked(score, now)];
      Fix(item.index);
      SameItems(items, old(items));
    }

    method HeapPush(x: TraceScore)
      requires Valid() && x !in items
      modifies this, Repr`index, x`index
      ensures Repr == old(Repr) + {x}
      ensures Valid() && multiset(items) == multiset(old(items)) + multiset{x}
      ensures |items| == |old(items)| + 1 && forall o :: o in items <==> o in old(items) || o == x
    {
      ghost var r := Ranks();
      Push(x);
      ghost var pushed := items;
      assert Ranks() == r + [x.Rank()];
      PushedLast(r, x.Rank());
      Up(|items| - 1);
      SameItems(items, pushed);
    }

    /** The first half of heap.Pop: the root goes last, the others are a heap again. */
    method SinkRoot()
      requires Valid() && items != []
      modifies `items, Repr`index
      ensures Indexed() && multiset(items) == multiset(old(items))
      ensures |items| == |old(items)| && items[|items| - 1] == old(items)[0]
      ensures IsHeap(Ranks(), |items| - 1)
    {
      hide Lower, HeapExcept, IsHeap, HeapButDown;
      var n := |items| - 1;
      SwappedRoot(Ranks());
      Swap(0, n);
      var moved := Down(0, n, false);
      HeapExceptNothing(Ranks(), 0, 0, n);
    }

    /** Remove an item that no other item is below. */
    method HeapPop() returns (x: TraceScore)
      requires Valid() && items != []
      modifies `items, Repr`index
      ensures Valid() && multiset(items) + multiset{x} == multiset(old(items))
      ensures |items| == |old(items)| - 1 && x !in items
      ensures forall o :: o in old(items) <==> o in items || o == x
      ensures forall o <- items :: !Lower(o.Rank(), x.Rank())
    {
      hide Lower, IsHeap;
      RootBelowAll();
      SinkRoot();
      ghost var sunk := items;
      SameItems(sunk, old(items));
      HeapPrefix(Ranks(), |items| - 1);
      x := Pop();
      assert x.index == -1;
    }

    lemma RootBelowAll()
      requires items != [] && IsHeap(Ranks(), |items|)
      ensures forall o <- items :: !Lower(o.Rank(), items[0].Rank())
    {
      forall k | 0 <= k < |items| ensures !Lower(items[k].Rank(), items[0].Rank()) {
        RootIsLeast(Ranks(), k, |items|);
      }
    }
  }

  lemma HeapPrefix(r: seq<Rank>, n: nat)
    requires n <= |r| && IsHeap(r, n)
    ensures IsHeap(r[..n], n)
  {
    forall c | 0 < c < n ensures Ordered(r[..n], c) {
      assert Ordered(r, c);
    }
  }

  lemma SwappedItems(s: seq<TraceScore>, i: int, j: int)
    requires 0 <= i < |s| && 0 <= j < |s|
    ensures multiset(Swapped(s, i, j)) == multiset(s)
    ensures forall x :: x in Swapped(s, i, j) <==> x in s
    ensures Swapped(s, i, j)[i] == s[j] && Swapped(s, i, j)[j] == s[i]
    ensures forall k | 0 <= k < |s| && k != i && k != j :: Swapped(s, i, j)[k] == s[k]
  {
    SameItems(Swapped(s, i, j), s);
  }

  lemma SameItems(a: seq<TraceScore>, b: seq<TraceScore>)
    requires multiset(a) == multiset(b)
    ensures |a| == |b| && forall x :: x in a <==> x in b
  {
    assert |multiset(a)| == |multiset(b)|;
    assert forall x :: x in a <==> x in multiset(a);
    assert forall x :: x in b <==> x in multiset(b);
  }

  // ---------- eviction ----------

  type Entries = map<string, Rank>

  /** What eviction may leave of `all` when at most `maxSize` entries are allowed: no kept entry
      is below a dropped one, and nothing is dropped needlessly. */
  ghost predicate Evicts(all: Entries, kept: Entries, maxSize: nat) {
    && Best(all, kept)
    && |kept| == if |all| <= maxSize then |all| else maxSize
  }

  ghost predicate Best(all: Entries, kept: Entries) {
    && (forall k <- kept :: k in all && kept[k] == all[k])
    && (forall k, d | k in kept && d in all && d !in kept :: !Lower(all[k], all[d]))
  }

  lemma SubsetOfSameSize(a: set<string>, b: set<string>)
    requires a <= b && |a| >= |b|
    ensures a == b
  {
    var rest := b - a;
    assert b == a + rest && a !! rest;
    assert |b| == |a| + |rest|;
  }

  lemma LowerIsTotal(a: Rank, b: Rank)
    ensures Lower(a, b) || Lower(b, a) || a == b
  {}

  /** When no two entries have the same rank, the survivors are determined. */
  lemma SurvivorsAreUnique(all: Entries, kept: Entries, other: Entries, maxSize: nat)
    requires Evicts(all, kept, maxSize) && Evicts(all, other, maxSize)
    requires forall a, b | a in all && b in all && a != b :: all[a] != all[b]
    ensures kept == other
  {
    hide Lower;
    if a :| a in kept && a !in other {
      forall b <- other ensures b in kept {
        if b !in kept {
          LowerIsTotal(all[a], all[b]);
        }
      }
      SubsetOfSameSize(other.Keys, kept.Keys);
    } else {
      SubsetOfSameSize(kept.Keys, other.Keys);
    }
  }

  /** If an entry was dropped before, the queue was full, so keeping the new one cost an old one. */
  lemma MadeRoom(all: Entries, kept: Entries, id: string, r: Rank, kept': Entries, maxSize: nat, d: string)
    requires Evicts(all, kept, maxSize) && id !in all && Evicts(kept[id := r], kept', maxSize)
    requires id in kept' && d in all && d !in kept
    ensures exists e :: e in kept && e !in kept'
  {
    if |kept| == |all| {
      SubsetOfSameSize(kept.Keys, all.Keys);
    }
    if kept.Keys <= kept'.Keys {
      assert id !in kept;
      assert |kept.Keys + {id}| == |kept| + 1;
      SubsetSize(kept.Keys + {id}, kept'.Keys);
    }
  }

  lemma NotLowerTransitive(a: Rank, b: Rank, c: Rank)
    requires !Lower(a, b) && !Lower(b, c)
    ensures !Lower(a, c)
  {}

  /** Dropping first and adding later keeps the greatest of everything seen. */
  lemma EvictionComposes(all: Entries, kept: Entries, id: string, r: Rank, kept': Entries, maxSize: nat)
    requires Evicts(all, kept, maxSize) && id !in all
    requires Evicts(kept[id := r], kept', maxSize)
    ensures Evicts(all[id := r], kept', maxSize)
  {
    hide Lower;
    BestComposes(all, kept, id, r, kept', maxSize);
    assert kept[id := r].Keys == kept.Keys + {id} && all[id := r].Keys == all.Keys + {id};
    assert |kept[id := r]| == |kept| + 1 && |all[id := r]| == |all| + 1;
  }

  lemma BestComposes(all: Entries, kept: Entries, id: string, r: Rank, kept': Entries, maxSize: nat)
    requires Evicts(all, kept, maxSize) && id !in all
    requires Evicts(kept[id := r], kept', maxSize)
    ensures Best(all[id := r], kept')
  {
    hide Lower;
    var all', mid := all[id := r], kept[id := r];
    forall k, d | k in kept' && d in all' && d !in kept' ensures !Lower(all'[k], all'[d]) {
      assert k in mid && kept'[k] == mid[k];
      if d != id && d !in kept && k == id {
        MadeRoom(all, kept, id, r, kept', maxSize, d);
        var e :| e in kept && e !in kept';
        assert !Lower(mid[id], mid[e]) && !Lower(all[e], all[d]);
        NotLowerTransitive(mid[id], all[e], all[d]);
      }
    }
  }

  lemma SubsetSize(a: set<string>, b: set<string>)
    requires a <= b
    ensures |a| <= |b|
  {
    var rest := b - a;
    assert b == a + rest && a !! rest;
  }

  type Stream = seq<(string, Rank)>

  function StreamEntries(stream: Stream): Entries {
    if stream == [] then map[]
    else StreamEntries(stream[..|stream| - 1])[stream[|stream| - 1].0 := stream[|stream| - 1].1]
  }

  /** `states[i]` can be what the queue holds after deciding the first `i` traces of the stream. */
  ghost predicate Survives(stream: Stream, states: seq<Entries>, maxSize: nat) {
    && |states| == |stream| + 1 && states[0] == map[]
    && forall i | 0 <= i < |stream| :: Evicts(states[i][stream[i].0 := stream[i].1], states[i + 1], maxSize)
  }

  lemma {:induction false} StreamKeys(stream: Stream)
    ensures forall id <- StreamEntries(stream) :: exists i | 0 <= i < |stream| :: stream[i].0 == id
  {
    if stream != [] {
      StreamKeys(stream[..|stream| - 1]);
    }
  }

  /** A stream of distinct traces leaves exactly the `maxSize` greatest of all of them. */
  lemma {:induction false} StreamKeepsTheGreatest(stream: Stream, states: seq<Entries>, maxSize: nat)
    requires Survives(stream, states, maxSize)
    requires forall i, j | 0 <= i < j < |stream| :: stream[i].0 != stream[j].0
    ensures Evicts(StreamEntries(stream), states[|stream|], maxSize)
    decreases |stream|
  {
    hide Evicts;
    if stream == [] {
      NothingEvicted(maxSize);
    } else {
      var n := |stream| - 1;
      var (id, r) := stream[n];
      StreamKeepsTheGreatest(stream[..n], states[..n + 1], maxSize);
      StreamKeys(stream[..n]);
      assert Evicts(states[n][stream[n].0 := stream[n].1], states[n + 1], maxSize);
      EvictionComposes(StreamEntries(stream[..n]), states[n], id, r, states[n + 1], maxSize);
    }
  }

  lemma NothingEvicted(maxSize: nat)
    ensures Evicts(map[], map[], maxSize)
  {}

  // ---------- the sampler ----------

  datatype SampleDecision = Keep | Drop

  const FIVE_MINUTES: int := 5 * 60 * 1_000_000_000

  class AdaptiveSampler {
    const samplingRate: real
    const maxSize: nat
    const pq: PriorityQueue
    var traceIndex: map<string, TraceScore>
    var seenTraces: map<string, int>

    /** The index is exactly the queue keyed by trace id. */
    ghost predicate Linked()
      reads `traceIndex, pq, pq.Repr
    {
      && pq.Valid()
      && (forall id <- traceIndex :: traceIndex[id] in pq.items && traceIndex[id].traceID == id)
      && (forall o <- pq.items :: o.traceID in traceIndex && traceIndex[o.traceID] == o)
    }

    ghost predicate Valid()
      reads `traceIndex, pq, pq.Repr
    {
      Linked() && |pq.items| <= maxSize
    }

    ghost function Entries(): Entries
      reads `traceIndex, traceIndex.Values
    {
      map id | id in traceIndex :: traceIndex[id].Rank()
    }

    constructor (samplingRate: real, maxSize: nat)
      ensures Valid() && Entries() == map[] && fresh(pq) && pq.Repr == {}
      ensures this.samplingRate == samplingRate && this.maxSize == maxSize && seenTraces == map[]
    {
      this.samplingRate, this.maxSize := samplingRate, maxSize;
      traceIndex, seenTraces := map[], map[];
      pq := new PriorityQueue();
    }

    method Rescore(item: TraceScore, score: real, now: int)
      requires Linked() && item in pq.items
      modifies pq, pq.Repr
      ensures Linked() && pq.Repr == old(pq.Repr)
      ensures Entries() == old(Entries())[item.traceID := Ranked(score, now)]
    {
      pq.Reorder(item, score, now);
    }

    method Insert(traceID: string, score: real, now: int)
      requires Linked() && traceID !in traceIndex
      modifies this`traceIndex, pq, pq.Repr
      ensures Linked() && fresh(pq.Repr - old(pq.Repr))
      ensures Entries() == old(Entries())[traceID := Ranked(score, now)]
    {
      hide PriorityQueue.Valid;
      var item := new TraceScore(traceID, score, now);
      pq.HeapPush(item);
      traceIndex := traceIndex[traceID := item];
    }

    /** Rescore the trace in place, or push it. */
    method Upsert(traceID: string, score: real, now: int)
      requires Linked()
      modifies this`traceIndex, pq, pq.Repr
      ensures Linked() && fresh(pq.Repr - old(pq.Repr))
      ensures Entries() == old(Entries())[traceID := Ranked(score, now)]
    {
      if traceID in traceIndex {
        Rescore(traceIndex[traceID], score, now);
      } else {
        Insert(traceID, score, now);
      }
    }

    /** Pop the least entry and forget it. */
    method EvictOne()
      requires Linked() && pq.items != []
      modifies this`traceIndex, pq, pq.Repr
      ensures Linked() && pq.Repr == old(pq.Repr) && |pq.items| == |old(pq.items)| - 1
      ensures Best(old(Entries()), Entries())
    {
      hide PriorityQueue.Valid, Lower;
      var evicted := pq.HeapPop();
      traceIndex := traceIndex - {evicted.traceID};
    }

    lemma IndexSize()
      requires Linked()
      ensures |Entries()| == |pq.items|
    {
      assert Entries().Keys == traceIndex.Keys;
      DistinctIds(pq.items, traceIndex.Keys);
    }

    /** The eviction loop. */
    method EvictExcess()
      requires Linked()
      modifies this`traceIndex, pq, pq.Repr
      ensures Valid() && pq.Repr == old(pq.Repr)
      ensures Evicts(old(Entries()), Entries(), maxSize) && |Entries()| == |pq.items|
    {
      hide PriorityQueue.Valid;
      IndexSize();
      while |pq.items| > maxSize
        invariant Linked() && pq.Repr == old(pq.Repr)
        invariant Best(old(Entries()), Entries())
        invariant |pq.items| == |old(pq.items)| || (|old(pq.items)| > maxSize && |pq.items| >= maxSize)
      {
        EvictOne();
      }
      IndexSize();
    }

    method Decide(isTrace: bool, traceID: string, score: real, now: int, later: int) returns (d: SampleDecision)
      requires Valid()
      modifies this, pq, pq.Repr
      ensures Valid() && fresh(pq.Repr - old(pq.Repr))
      ensures !isTrace || traceID == "" ==> d == Keep && Entries() == old(Entries()) && seenTraces == old(seenTraces)
      ensures isTrace && traceID != "" ==>
                && Evicts(old(Entries())[traceID := Ranked(score, now)], Entries(), maxSize)
                && seenTraces == old(seenTraces)[traceID := now]
                && d == Verdict(score, Recent(old(seenTraces), traceID, later), |Entries()|, maxSize, samplingRate)
    {
      hide *;
      if isTrace && traceID != "" {
        d := Admit(traceID, score, now, later);
      } else {
        d := Keep;
      }
    }

    /** `Decide` on a trace that has an id. */
    method Admit(traceID: string, score: real, now: int, later: int) returns (d: SampleDecision)
      requires Valid()
      modifies this, pq, pq.Repr
      ensures Valid() && fresh(pq.Repr - old(pq.Repr))
      ensures Evicts(old(Entries())[traceID := Ranked(score, now)], Entries(), maxSize)
      ensures seenTraces == old(seenTraces)[traceID := now]
      ensures d == Verdict(score, Recent(old(seenTraces), traceID, later), |Entries()|, maxSize, samplingRate)
    {
      hide Linked, Evicts, Entries, Verdict, Recent;
      var seenRecently := Recent(seenTraces, traceID, later);
      Upsert(traceID, score, now);
      seenTraces := seenTraces[traceID := now];
      EvictExcess();
      d := Verdict(score, seenRecently, |pq.items|, maxSize, samplingRate);
    }
  }

  predicate Recent(seen: map<string, int>, traceID: string, now: int) {
    traceID in seen && now - seen[traceID] < FIVE_MINUTES
  }

  /** The verdict on a trace, once the queue is back within its bound: keep it when it scores
      high, was seen lately, or the queue is at most at the keep threshold. */
  function Verdict(score: real, seenRecently: bool, length: nat, maxSize: nat, samplingRate: real): (d: SampleDecision)
    ensures length <= 1 ==> d == Keep
    ensures d == Drop ==> score < 50.0 && !seenRecently && length > Truncate(maxSize as real * samplingRate)
  {
    var threshold := Truncate(maxSize as real * samplingRate);
    if score >= 50.0 || seenRecently then Keep
    else if length <= if threshold < 1 then 1 else threshold then Keep
    else Drop
  }

  lemma {:induction false} DistinctIds(items: seq<TraceScore>, ids: set<string>)
    requires forall i, j | 0 <= i < j < |items| :: items[i].traceID != items[j].traceID
    requires forall id <- ids :: exists o :: o in items && o.traceID == id
    requires forall o <- items :: o.traceID in ids
    ensures |ids| == |items|
    decreases |items|
  {
    if items == [] {
      assert ids == {};
    } else {
      var n := |items| - 1;
      var rest := ids - {items[n].traceID};
      forall id <- rest ensures exists o :: o in items[..n] && o.traceID == id {
        var o :| o in items && o.traceID == id;
        assert o in items[..n];
      }
      DistinctIds(items[..n], rest);
      assert ids == rest + {items[n].traceID};
    }
  }
}
