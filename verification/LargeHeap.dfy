/** The large-block allocator of largemalloc.c: boundary tags, coalescing and
    bins.  Addresses are byte offsets; `size` and `prevSize` are the two header
    words of the chunk that begins at an address. */
module LargeHeap {
  import opened Bins

  const CHUNK_HEADER_SIZE: nat := 16
  const CHUNK_STRUCT_SIZE: nat := 48        // sizeof(struct malloc_chunk)
  const MIN_ALLOC_SIZE: nat := 32
  const OVERHEAD: nat := 16                 // LARGE_MALLOC_OVERHEAD
  const END_MARKER: nat := 0xDEADBEEF
  const BOTH_CHUNKS_USED: nat := 0
  const THIS_CHUNK_FREE: nat := 1

  /** The state of the allocator.  `chunks` and `free` say which addresses carry
      a chunk, and a free one; they are bookkeeping, everything else is real. */
  datatype Heap = Heap(
    size: seq<nat>,
    prevSize: seq<nat>,
    bins: seq<Bin>,
    first: nat,
    last: nat,
    chunks: set<nat>,
    free: set<nat>)

  function NextChunk(h: Heap, a: nat): nat
    requires a < |h.size|
  {
    a + CHUNK_HEADER_SIZE + h.size[a]
  }

  /** The chunks tile the arena from the first one to the end marker. */
  ghost predicate Tiled(h: Heap) {
    && |h.size| == |h.prevSize| && h.last + CHUNK_HEADER_SIZE <= |h.size|
    && h.first in h.chunks && h.last in h.chunks && h.size[h.last] == END_MARKER
    && (forall a: nat :: a in h.chunks ==> h.first <= a <= h.last)
    && (forall a: nat {:trigger NextChunk(h, a)} :: a in h.chunks && a != h.last ==>
      h.size[a] >= MIN_ALLOC_SIZE && h.size[a] % 8 == 0 && NextChunk(h, a) in h.chunks)
    && (forall a: nat, b: nat {:trigger NextChunk(h, a), b in h.chunks} ::
      a in h.chunks && b in h.chunks && a < b ==> NextChunk(h, a) <= b)
  }

  /** The tag of a chunk: the size of the chunk before it if that is free,
      otherwise whether it is free itself. */
  ghost predicate TagOk(h: Heap, a: nat)
    requires Tiled(h) && a in h.chunks && a != h.last
  {
    var n := NextChunk(h, a);
    if a in h.free then n !in h.free && h.prevSize[n] == h.size[a]
    else h.prevSize[n] == if n in h.free then THIS_CHUNK_FREE else BOTH_CHUNKS_USED
  }

  ghost predicate Tagged(h: Heap)
    requires Tiled(h)
  {
    && h.free <= h.chunks && h.last !in h.free
    && h.prevSize[h.first] == (if h.first in h.free then THIS_CHUNK_FREE else BOTH_CHUNKS_USED)
    && (forall a: nat {:trigger TagOk(h, a)} :: a in h.chunks && a != h.last ==> TagOk(h, a))
  }

  /** Bin i holds exactly the free chunks of its size class, once each. */
  ghost predicate BinOk(b: Bin, i: nat, free: set<nat>, size: seq<nat>)
    requires forall x :: x in free ==> x < |size|
  {
    && BinSorted(b, size)
    && forall x: nat {:trigger Members(b)[x]} :: Members(b)[x] == if x in free && LargeBinIndex(size[x]) == i then 1 else 0
  }

  ghost predicate Binned(h: Heap, free: set<nat>) {
    && |h.bins| == N_BINS && (forall x :: x in free ==> x < |h.size|)
    && (forall i :: 0 <= i < N_BINS ==> BinOk(h.bins[i], i, free, h.size))
  }

  ghost predicate HeapOk(h: Heap) {
    Tiled(h) && Tagged(h) && Binned(h, h.free)
  }

  ghost function Used(h: Heap): set<nat> { h.chunks - h.free - {h.last} }

  // ----- accounting

  /** The bytes that count as allocated for the given chunks. */
  ghost function Weight(s: set<nat>, size: seq<nat>): nat
    requires forall x :: x in s ==> x < |size|
  {
    if s == {} then 0 else
      var x :| x in s;
      size[x] + OVERHEAD + Weight(s - {x}, size)
  }

  lemma {:induction false} WeightWithout(s: set<nat>, size: seq<nat>, y: nat)
    requires (forall x :: x in s ==> x < |size|) && y in s
    ensures Weight(s, size) == size[y] + OVERHEAD + Weight(s - {y}, size)
    decreases |s|
  {
    var x :| x in s && Weight(s, size) == size[x] + OVERHEAD + Weight(s - {x}, size);
    if x != y {
      WeightWithout(s - {x}, size, y);
      WeightWithout(s - {y}, size, x);
      assert s - {x} - {y} == s - {y} - {x};
    }
  }

  lemma {:induction false} WeightFrame(s: set<nat>, size: seq<nat>, size': seq<nat>)
    requires forall x :: x in s ==> x < |size| && x < |size'| && size'[x] == size[x]
    ensures Weight(s, size) == Weight(s, size')
    decreases |s|
  {
    if s != {} {
      var x :| x in s;
      WeightWithout(s, size, x);
      WeightWithout(s, size', x);
      WeightFrame(s - {x}, size, size');
    }
  }

  ghost function UsedWeight(h: Heap): nat
    requires Tiled(h)
  {
    Weight(Used(h), h.size)
  }

  // ----- bins

  lemma OtherBin(b: Bin, i: nat, free: set<nat>, free': set<nat>, size: seq<nat>, x: nat)
    requires (forall y :: y in free ==> y < |size|) && x < |size| && LargeBinIndex(size[x]) != i
    requires free' == free + {x} || free' == free - {x}
    requires BinOk(b, i, free, size)
    ensures BinOk(b, i, free', size)
  {
  }

  lemma InsertInBin(b: Bin, i: nat, free: set<nat>, size: seq<nat>, x: nat)
    requires (forall y :: y in free ==> y < |size|) && x < |size| && LargeBinIndex(size[x]) == i && x !in free
    requires BinOk(b, i, free, size)
    ensures BinOk(b.(unsorted := b.unsorted + [x]), i, free + {x}, size)
  {
    var b' := b.(unsorted := b.unsorted + [x]);
    assert Members(b') == Members(b) + multiset{x};
    forall y: nat ensures Members(b')[y] == if y in free + {x} && LargeBinIndex(size[y]) == i then 1 else 0 {
      assert Members(b)[y] == if y in free && LargeBinIndex(size[y]) == i then 1 else 0;
    }
  }

  lemma UnlinkInBin(b: Bin, i: nat, free: set<nat>, size: seq<nat>, x: nat)
    requires (forall y :: y in free ==> y < |size|) && x in free && LargeBinIndex(size[x]) == i
    requires BinOk(b, i, free, size)
    ensures BinOk(Unlinked(b, x), i, free - {x}, size)
  {
    UnlinkedMembers(b, x);
    UnlinkedSorted(b, x, size);
    forall y: nat ensures Members(Unlinked(b, x))[y] == if y in free - {x} && LargeBinIndex(size[y]) == i then 1 else 0 {
      assert Members(b)[y] == if y in free && LargeBinIndex(size[y]) == i then 1 else 0;
    }
  }

  lemma InsertKeeps(h: Heap, h': Heap, free: set<nat>, x: nat)
    requires Binned(h, free) && x < |h.size| && x !in free && h'.size == h.size
    requires h'.bins == InsertUnsorted(h.bins, LargeBinIndex(h.size[x]), x)
    ensures Binned(h', free + {x})
  {
    forall i | 0 <= i < N_BINS ensures BinOk(h'.bins[i], i, free + {x}, h.size) {
      if i == LargeBinIndex(h.size[x]) { InsertInBin(h.bins[i], i, free, h.size, x); } else { OtherBin(h.bins[i], i, free, free + {x}, h.size, x); }
    }
  }

  lemma UnlinkKeeps(h: Heap, h': Heap, free: set<nat>, x: nat)
    requires Binned(h, free) && x in free && h'.size == h.size
    requires h'.bins == h.bins[LargeBinIndex(h.size[x]) := Unlinked(h.bins[LargeBinIndex(h.size[x])], x)]
    ensures Binned(h', free - {x})
  {
    forall i | 0 <= i < N_BINS ensures BinOk(h'.bins[i], i, free - {x}, h.size) {
      if i == LargeBinIndex(h.size[x]) { UnlinkInBin(h.bins[i], i, free, h.size, x); } else { OtherBin(h.bins[i], i, free, free - {x}, h.size, x); }
    }
  }

  /** Changing the sizes of chunks that are in no bin. */
  lemma ResizeKeeps(h: Heap, h': Heap, free: set<nat>)
    requires Binned(h, free) && h'.bins == h.bins && |h'.size| == |h.size|
    requires forall x :: x in free ==> x < |h.size| && h'.size[x] == h.size[x]
    ensures Binned(h', free)
  {
    forall i | 0 <= i < N_BINS ensures BinOk(h'.bins[i], i, free, h'.size) {
      ResizeInBin(h.bins[i], i, free, h.size, h'.size);
    }
  }

  lemma ResizeInBin(b: Bin, i: nat, free: set<nat>, size: seq<nat>, size': seq<nat>)
    requires |size| == |size'| && (forall x :: x in free ==> x < |size| && size'[x] == size[x]) && BinOk(b, i, free, size)
    ensures BinOk(b, i, free, size')
  {
    forall x: nat | x in Members(b) ensures x in free {
      assert Members(b)[x] == if x in free && LargeBinIndex(size[x]) == i then 1 else 0;
    }
    BinFrame(b, size, size');
    forall x: nat ensures Members(b)[x] == if x in free && LargeBinIndex(size'[x]) == i then 1 else 0 {
      assert Members(b)[x] == if x in free && LargeBinIndex(size[x]) == i then 1 else 0;
    }
  }

  // ----- neighbours

  lemma NextInjective(h: Heap, a: nat, b: nat)
    requires Tiled(h) && a in h.chunks && b in h.chunks && a != h.last && b != h.last && NextChunk(h, a) == NextChunk(h, b)
    ensures a == b
  {
  }

  /** The chunk before a, found by walking from b. */
  lemma Predecessor(h: Heap, b: nat, a: nat) returns (p: nat)
    requires Tiled(h) && a in h.chunks && b in h.chunks && b < a
    ensures p in h.chunks && p != h.last && b <= p < a && NextChunk(h, p) == a
    decreases a - b
  {
    if NextChunk(h, b) == a { p := b; } else { p := Predecessor(h, NextChunk(h, b), a); }
  }

  // ----- taking a free chunk

  /** The end of _stm_large_malloc, for a chunk that was taken out of its bin:
      uses all of it, or cuts off a new free chunk. */
  function Take(h: Heap, x: nat, request: nat): Heap
    requires |h.size| == |h.prevSize| && |h.bins| == N_BINS && x < |h.size| && request <= h.size[x]
    requires NextChunk(h, x) < |h.size|
  {
    var next := NextChunk(h, x);
    var remaining := h.size[x] - request;
    if remaining < CHUNK_STRUCT_SIZE then
      h.(prevSize := h.prevSize[next := BOTH_CHUNKS_USED][x := BOTH_CHUNKS_USED], free := h.free - {x})
    else
      var cut := x + CHUNK_HEADER_SIZE + request;
      var rest := remaining - CHUNK_HEADER_SIZE;
      h.(prevSize := h.prevSize[cut := THIS_CHUNK_FREE][next := rest][x := BOTH_CHUNKS_USED],
         size := h.size[cut := rest][x := request],
         bins := InsertUnsorted(h.bins, LargeBinIndex(rest), cut),
         chunks := h.chunks + {cut},
         free := h.free - {x} + {cut})
  }

  ghost predicate CanTake(h: Heap, x: nat, request: nat) {
    && Tiled(h) && Tagged(h) && x in h.free && Binned(h, h.free - {x})
    && MIN_ALLOC_SIZE <= request <= h.size[x] && request % 8 == 0
  }

  /** Where the chunks end when a new one was cut off from x. */
  lemma CutNext(h: Heap, x: nat, request: nat, a: nat)
    requires CanTake(h, x, request) && h.size[x] - request >= CHUNK_STRUCT_SIZE
    requires a in Take(h, x, request).chunks && a != h.last
    ensures var h', cut := Take(h, x, request), x + CHUNK_HEADER_SIZE + request;
      && x < cut < NextChunk(h, x) && cut !in h.chunks && |h'.size| == |h.size| && a < |h'.size|
      && NextChunk(h', a) == (if a == x then cut else if a == cut then NextChunk(h, x) else NextChunk(h, a))
  {
    var cut := x + CHUNK_HEADER_SIZE + request;
    assert x < cut < NextChunk(h, x);
  }

  lemma CutSizes(h: Heap, x: nat, request: nat, a: nat)
    requires CanTake(h, x, request) && h.size[x] - request >= CHUNK_STRUCT_SIZE
    requires a in Take(h, x, request).chunks && a != h.last
    ensures var h' := Take(h, x, request);
      a < |h'.size| && h'.size[a] >= MIN_ALLOC_SIZE && h'.size[a] % 8 == 0 && NextChunk(h', a) in h'.chunks
  {
    hide Binned, TagOk;
    CutNext(h, x, request, a);
  }

  lemma CutOrder(h: Heap, x: nat, request: nat, a: nat, b: nat)
    requires CanTake(h, x, request) && h.size[x] - request >= CHUNK_STRUCT_SIZE
    requires a in Take(h, x, request).chunks && b in Take(h, x, request).chunks && a < b && a != h.last
    ensures a < |Take(h, x, request).size| && NextChunk(Take(h, x, request), a) <= b
  {
    hide Binned, TagOk;
    CutNext(h, x, request, a);
  }

  lemma TakeTiles(h: Heap, x: nat, request: nat)
    requires CanTake(h, x, request)
    ensures Tiled(Take(h, x, request))
  {
    hide Binned, TagOk;
    TakeReady(h, x, request);
    var h' := Take(h, x, request);
    if h.size[x] - request < CHUNK_STRUCT_SIZE {
      SameTiles(h, h');
    } else {
      CutNext(h, x, request, x);
      forall a: nat | a in h'.chunks && a != h'.last
        ensures a < |h'.size| && h'.size[a] >= MIN_ALLOC_SIZE && h'.size[a] % 8 == 0 && NextChunk(h', a) in h'.chunks
      {
        CutSizes(h, x, request, a);
      }
      forall a: nat, b: nat | a in h'.chunks && b in h'.chunks && a < b ensures NextChunk(h', a) <= b {
        CutOrder(h, x, request, a, b);
      }
    }
  }

  lemma SameTiles(h: Heap, h': Heap)
    requires Tiled(h) && h'.size == h.size && |h'.prevSize| == |h.prevSize| && h'.chunks == h.chunks && h'.first == h.first && h'.last == h.last
    ensures Tiled(h') && forall a: nat {:trigger NextChunk(h, a)} {:trigger NextChunk(h', a)} :: a in h.chunks ==> NextChunk(h', a) == NextChunk(h, a)
  {
    forall a: nat | a in h'.chunks ensures NextChunk(h', a) == NextChunk(h, a) {}
  }

  /** A chunk whose tag and whose neighbour did not change. */
  lemma SameTag(h: Heap, h': Heap, b: nat)
    requires Tiled(h) && Tiled(h') && b in h.chunks && b in h'.chunks && b != h.last && b != h'.last && TagOk(h, b)
    requires var n := NextChunk(h, b);
      && NextChunk(h', b) == n && n < |h.prevSize| && n < |h'.prevSize| && h'.prevSize[n] == h.prevSize[n]
      && (b in h'.free <==> b in h.free) && (n in h'.free <==> n in h.free)
    ensures TagOk(h', b)
  {
  }

  lemma WholeTag(h: Heap, x: nat, request: nat, a: nat, h': Heap)
    requires CanTake(h, x, request) && h.size[x] - request < CHUNK_STRUCT_SIZE && a in h.chunks && a != h.last
    requires h' == Take(h, x, request) && Tiled(h') && a in h'.chunks && a != h'.last
    ensures TagOk(h', a)
  {
    hide TagOk, Binned;
    SameTiles(h, h');
    assert TagOk(h, x) && TagOk(h, a);
    if a == x {
      UsedUp(h, x, request, h');
    } else {
      if NextChunk(h, a) == NextChunk(h, x) { NextInjective(h, a, x); }
      if NextChunk(h, a) == x { BeforeUsed(h, x, request, a, h'); } else { SameTag(h, h', a); }
    }
  }

  lemma UsedUp(h: Heap, x: nat, request: nat, h': Heap)
    requires CanTake(h, x, request) && h.size[x] - request < CHUNK_STRUCT_SIZE && h' == Take(h, x, request) && Tiled(h')
    requires TagOk(h, x) && x in h'.chunks && x != h'.last && NextChunk(h', x) == NextChunk(h, x)
    ensures TagOk(h', x)
  {
  }

  lemma BeforeUsed(h: Heap, x: nat, request: nat, a: nat, h': Heap)
    requires CanTake(h, x, request) && h.size[x] - request < CHUNK_STRUCT_SIZE && h' == Take(h, x, request) && Tiled(h')
    requires a in h.chunks && a != h.last && TagOk(h, a) && NextChunk(h, a) == NextChunk(h', a) == x && a != x
    requires a in h'.chunks && a != h'.last
    ensures TagOk(h', a)
  {
  }

  lemma CutTag(h: Heap, x: nat, request: nat, a: nat)
    requires CanTake(h, x, request) && h.size[x] - request >= CHUNK_STRUCT_SIZE
    requires a in Take(h, x, request).chunks && a != h.last
    ensures Tiled(Take(h, x, request)) && TagOk(Take(h, x, request), a)
  {
    TakeTiles(h, x, request);
    CutNext(h, x, request, a);
    assert TagOk(h, x);
    if a in h.chunks && a != x {
      assert TagOk(h, a);
      if NextChunk(h, a) == NextChunk(h, x) { NextInjective(h, a, x); }
    }
  }

  lemma TakeFirstTag(h: Heap, x: nat, request: nat)
    requires CanTake(h, x, request)
    ensures var h' := Take(h, x, request);
      && h'.free <= h'.chunks && h'.last !in h'.free && h'.first < |h'.prevSize|
      && h'.prevSize[h'.first] == if h'.first in h'.free then THIS_CHUNK_FREE else BOTH_CHUNKS_USED
  {
    assert h.first < NextChunk(h, x);
    if h.size[x] - request >= CHUNK_STRUCT_SIZE { CutNext(h, x, request, x); }
  }

  lemma TakeTags(h: Heap, x: nat, request: nat)
    requires CanTake(h, x, request)
    ensures Tiled(Take(h, x, request)) && Tagged(Take(h, x, request))
  {
    TakeTiles(h, x, request);
    TakeFirstTag(h, x, request);
    var h' := Take(h, x, request);
    if h.size[x] - request < CHUNK_STRUCT_SIZE {
      forall a: nat | a in h'.chunks && a != h'.last ensures TagOk(h', a) { WholeTag(h, x, request, a, h'); }
    } else {
      forall a: nat | a in h'.chunks && a != h'.last ensures TagOk(h', a) { CutTag(h, x, request, a); }
    }
  }

  lemma TakeReady(h: Heap, x: nat, request: nat)
    requires CanTake(h, x, request)
    ensures x < |h.size| == |h.prevSize| && |h.bins| == N_BINS && NextChunk(h, x) < |h.size| && h.free <= h.chunks && x != h.last
  {
    assert NextChunk(h, x) in h.chunks;
  }

  lemma TakeBinned(h: Heap, x: nat, request: nat)
    requires CanTake(h, x, request)
    ensures Binned(Take(h, x, request), Take(h, x, request).free)
  {
    hide Tagged, TagOk, BinOk;
    TakeReady(h, x, request);
    var h' := Take(h, x, request);
    if h.size[x] - request < CHUNK_STRUCT_SIZE {
      ResizeKeeps(h, h', h'.free);
    } else {
      CutNext(h, x, request, x);
      var h1 := h.(size := h'.size);
      ResizeKeeps(h, h1, h.free - {x});
      InsertKeeps(h1, h', h.free - {x}, x + CHUNK_HEADER_SIZE + request);
    }
  }

  lemma TakeUses(h: Heap, x: nat, request: nat)
    requires CanTake(h, x, request)
    ensures var h' := Take(h, x, request);
      Used(h') == Used(h) + {x} && x !in Used(h) && |h'.size| == |h.size| && forall u :: u in Used(h) ==> u < |h.size| && h'.size[u] == h.size[u]
  {
    hide Binned, TagOk;
    TakeReady(h, x, request);
    if h.size[x] - request >= CHUNK_STRUCT_SIZE { CutNext(h, x, request, x); }
    assert Used(Take(h, x, request)) == Used(h) + {x};
  }

  lemma TakeKeeps(h: Heap, x: nat, request: nat)
    requires CanTake(h, x, request)
    ensures HeapOk(Take(h, x, request))
    ensures Used(Take(h, x, request)) == Used(h) + {x}
    ensures UsedWeight(Take(h, x, request)) == UsedWeight(h) + Take(h, x, request).size[x] + OVERHEAD
  {
    hide Tagged, TagOk, Binned, Take;
    TakeReady(h, x, request);
    TakeTags(h, x, request);
    TakeBinned(h, x, request);
    TakeUses(h, x, request);
    var h' := Take(h, x, request);
    WeightFrame(Used(h), h.size, h'.size);
    WeightWithout(Used(h'), h'.size, x);
    assert Used(h') - {x} == Used(h);
  }

  // ----- freeing a chunk

  predicate NextReadable(h: Heap, a: nat) {
    && |h.size| == |h.prevSize| && |h.bins| == N_BINS && a < |h.size| && NextChunk(h, a) < |h.size|
    && (h.prevSize[NextChunk(h, a)] != BOTH_CHUNKS_USED ==> NextChunk(h, NextChunk(h, a)) < |h.size|)
  }

  /** The first half of _large_free: merge with the following chunk. */
  function MergeNext(h: Heap, a: nat): Heap
    requires NextReadable(h, a)
  {
    var m := NextChunk(h, a);
    if h.prevSize[m] == BOTH_CHUNKS_USED then
      h.(prevSize := h.prevSize[m := h.size[a]])
    else
      var fsize := h.size[m] + h.size[a] + CHUNK_HEADER_SIZE;
      var i := LargeBinIndex(h.size[m]);
      h.(prevSize := h.prevSize[NextChunk(h, m) := fsize],
         size := h.size[a := fsize],
         bins := h.bins[i := Unlinked(h.bins[i], m)],
         chunks := h.chunks - {m},
         free := h.free - {m})
  }

  /** The second half: merge with the preceding chunk.  Also returns the chunk
      that came out of it. */
  function MergePrev(h: Heap, a: nat): (Heap, nat)
    requires |h.size| == |h.prevSize| && |h.bins| == N_BINS && a < |h.size|
    requires h.prevSize[a] != BOTH_CHUNKS_USED ==>
      h.prevSize[a] + CHUNK_HEADER_SIZE <= a && a + CHUNK_HEADER_SIZE + h.size[a] < |h.size|
  {
    if h.prevSize[a] == BOTH_CHUNKS_USED then
      (h.(prevSize := h.prevSize[a := THIS_CHUNK_FREE], free := h.free + {a}), a)
    else
      var p := a - CHUNK_HEADER_SIZE - h.prevSize[a];
      var i := LargeBinIndex(h.size[p]);
      var size := h.prevSize[a] + CHUNK_HEADER_SIZE + h.size[a];
      (h.(size := h.size[p := size],
          prevSize := h.prevSize[a + CHUNK_HEADER_SIZE + h.size[a] := size],
          bins := h.bins[i := Unlinked(h.bins[i], p)],
          chunks := h.chunks - {a}),
       p)
  }

  /** Between the two halves: a is as if free for the chunk after it, and as if
      used for the one before it. */
  ghost predicate HalfFreed(h: Heap, a: nat) {
    && Tiled(h) && h.free <= h.chunks && h.last !in h.free && a in h.chunks && a != h.last && a !in h.free
    && h.prevSize[h.first] == (if h.first in h.free then THIS_CHUNK_FREE else BOTH_CHUNKS_USED)
    && NextChunk(h, a) !in h.free && h.prevSize[NextChunk(h, a)] == h.size[a]
    && (forall b: nat {:trigger TagOk(h, b)} :: b in h.chunks && b != h.last && b != a ==> TagOk(h, b))
    && Binned(h, h.free)
  }

  ghost predicate CanFree(h: Heap, a: nat) {
    HeapOk(h) && a in Used(h)
  }

  /** The following chunk is free exactly if its tag is not 0. */
  lemma NextTag(h: Heap, a: nat)
    requires CanFree(h, a)
    ensures var m := NextChunk(h, a);
      && m < |h.size| && m in h.chunks
      && (h.prevSize[m] == BOTH_CHUNKS_USED <==> m !in h.free)
      && (m in h.free ==> m != h.last && NextChunk(h, m) in h.chunks && NextChunk(h, m) < |h.size| && NextChunk(h, m) !in h.free)
  {
    assert TagOk(h, a);
    var m := NextChunk(h, a);
    if m in h.free { assert TagOk(h, m); }
  }

  lemma MergedNextNext(h: Heap, a: nat, b: nat)
    requires CanFree(h, a) && NextChunk(h, a) in h.free && b in h.chunks && b != NextChunk(h, a) && b != h.last
    ensures NextReadable(h, a)
    ensures var m, h' := NextChunk(h, a), MergeNext(h, a);
      && m != h.last && m < NextChunk(h, m) && h'.chunks == h.chunks - {m}
      && b < |h'.size| && h'.size[b] >= MIN_ALLOC_SIZE && h'.size[b] % 8 == 0
      && NextChunk(h', b) == (if b == a then NextChunk(h, m) else NextChunk(h, b)) && NextChunk(h', b) in h'.chunks
  {
    NextTag(h, a);
    assert NextChunk(h, b) in h.chunks && NextChunk(h, NextChunk(h, a)) in h.chunks;
    if b != a && NextChunk(h, b) == NextChunk(h, a) { NextInjective(h, a, b); }
  }

  lemma MergedNextTiles(h: Heap, a: nat)
    requires CanFree(h, a) && NextChunk(h, a) in h.free
    ensures NextReadable(h, a) && Tiled(MergeNext(h, a)) && NextChunk(MergeNext(h, a), a) == NextChunk(h, NextChunk(h, a))
    ensures forall b: nat {:trigger NextChunk(h, b)} {:trigger NextChunk(MergeNext(h, a), b)} :: b in MergeNext(h, a).chunks && b != a ==> NextChunk(MergeNext(h, a), b) == NextChunk(h, b)
  {
    MergedNextNext(h, a, a);
    var m, h' := NextChunk(h, a), MergeNext(h, a);
    forall b: nat | b in h'.chunks && b != h'.last
      ensures b < |h'.size| && h'.size[b] >= MIN_ALLOC_SIZE && h'.size[b] % 8 == 0 && NextChunk(h', b) in h'.chunks
    {
      MergedNextNext(h, a, b);
    }
    forall b: nat, c: nat | b in h'.chunks && c in h'.chunks && b < c ensures NextChunk(h', b) <= c {
      MergedNextNext(h, a, b);
      assert NextChunk(h, b) <= c && (b == a ==> NextChunk(h, m) <= c);
    }
  }

  lemma MergeNextTiles(h: Heap, a: nat)
    requires CanFree(h, a)
    ensures NextReadable(h, a)
    ensures var m, h' := NextChunk(h, a), MergeNext(h, a);
      && Tiled(h') && NextChunk(h', a) == (if m in h.free then NextChunk(h, m) else m)
      && forall b: nat {:trigger NextChunk(h, b)} {:trigger NextChunk(h', b)} :: b in h'.chunks && b != a ==> NextChunk(h', b) == NextChunk(h, b)
  {
    NextTag(h, a);
    if NextChunk(h, a) in h.free { MergedNextTiles(h, a); } else { SameTiles(h, MergeNext(h, a)); }
  }

  lemma MergeNextTag(h: Heap, a: nat, b: nat)
    requires CanFree(h, a) && NextReadable(h, a) && b in MergeNext(h, a).chunks && b != h.last && b != a && Tiled(MergeNext(h, a))
    ensures TagOk(MergeNext(h, a), b)
  {
    MergeNextTiles(h, a);
    NextTag(h, a);
    var m := NextChunk(h, a);
    assert TagOk(h, b) && TagOk(h, a);
    if NextChunk(h, b) == m { NextInjective(h, a, b); }
    if m in h.free && NextChunk(h, b) == NextChunk(h, m) { NextInjective(h, m, b); }
  }

  lemma MergeNextHalf(h: Heap, a: nat)
    requires CanFree(h, a)
    ensures NextReadable(h, a)
    ensures HalfFreed(MergeNext(h, a), a) && Used(MergeNext(h, a)) == Used(h)
  {
    MergeNextTiles(h, a);
    NextTag(h, a);
    var m, h' := NextChunk(h, a), MergeNext(h, a);
    assert TagOk(h, a) && m != h.first;
    forall b: nat | b in h'.chunks && b != h'.last && b != a ensures TagOk(h', b) { MergeNextTag(h, a, b); }
    if m in h.free {
      assert TagOk(h, m);
      var h1 := h.(bins := h'.bins);
      UnlinkKeeps(h, h1, h.free, m);
      ResizeKeeps(h1, h', h'.free);
    } else {
      ResizeKeeps(h, h', h.free);
    }
  }

  /** The preceding chunk is free exactly if the tag of a is not 0, and the tag
      then says where it begins. */
  lemma PrevTag(h: Heap, a: nat)
    requires HalfFreed(h, a)
    ensures h.prevSize[a] != BOTH_CHUNKS_USED ==>
      && h.prevSize[a] + CHUNK_HEADER_SIZE <= a
      && var p := a - CHUNK_HEADER_SIZE - h.prevSize[a];
      p in h.free && p in h.chunks && p != h.last && p < a && NextChunk(h, p) == a && h.size[p] == h.prevSize[a]
    ensures h.prevSize[a] == BOTH_CHUNKS_USED ==> forall p: nat {:trigger NextChunk(h, p)} :: p in h.chunks && p != h.last && NextChunk(h, p) == a ==> p !in h.free
  {
    if a != h.first {
      var p := Predecessor(h, h.first, a);
      assert TagOk(h, p);
      forall q: nat | q in h.chunks && q != h.last && NextChunk(h, q) == a ensures q == p { NextInjective(h, p, q); }
    } else {
      forall q: nat | q in h.chunks && q != h.last ensures NextChunk(h, q) != a {}
    }
  }

  predicate PrevReadable(h: Heap, a: nat) {
    && |h.size| == |h.prevSize| && |h.bins| == N_BINS && a < |h.size|
    && (h.prevSize[a] != BOTH_CHUNKS_USED ==> h.prevSize[a] + CHUNK_HEADER_SIZE <= a && NextChunk(h, a) < |h.size|)
  }

  lemma MergePrevTiles(h: Heap, a: nat)
    requires HalfFreed(h, a)
    ensures PrevReadable(h, a)
    ensures var h', r := MergePrev(h, a).0, MergePrev(h, a).1;
      && Tiled(h') && r in h'.chunks && r != h'.last && r !in h.free - h'.free && NextChunk(h', r) == NextChunk(h, a)
      && (forall b: nat {:trigger NextChunk(h, b)} {:trigger NextChunk(h', b)} :: b in h'.chunks && b != r ==> NextChunk(h', b) == NextChunk(h, b))
  {
    PrevTag(h, a);
    assert NextChunk(h, a) in h.chunks;
    if h.prevSize[a] == BOTH_CHUNKS_USED {
      SameTiles(h, MergePrev(h, a).0);
    } else {
      MergedPrevTiles(h, a);
    }
  }

  lemma MergedPrevNext(h: Heap, a: nat, b: nat)
    requires HalfFreed(h, a) && h.prevSize[a] != BOTH_CHUNKS_USED && b in h.chunks && b != a && b != h.last
    ensures PrevReadable(h, a)
    ensures var h', r := MergePrev(h, a).0, MergePrev(h, a).1;
      && r in h.free && r < a < NextChunk(h, a) && b < |h'.size| && h'.size[b] >= MIN_ALLOC_SIZE && h'.size[b] % 8 == 0
      && NextChunk(h', b) == (if b == r then NextChunk(h, a) else NextChunk(h, b)) && NextChunk(h', b) in h'.chunks
  {
    PrevTag(h, a);
    var r := MergePrev(h, a).1;
    assert NextChunk(h, a) in h.chunks && NextChunk(h, r) == a && NextChunk(h, b) in h.chunks;
    if b != r && NextChunk(h, b) == a { NextInjective(h, r, b); }
  }

  lemma MergedPrevTiles(h: Heap, a: nat)
    requires HalfFreed(h, a) && h.prevSize[a] != BOTH_CHUNKS_USED
    ensures PrevReadable(h, a)
    ensures var h', r := MergePrev(h, a).0, MergePrev(h, a).1;
      && Tiled(h') && r in h'.chunks && r != h'.last && NextChunk(h', r) == NextChunk(h, a)
      && (forall b: nat {:trigger NextChunk(h, b)} {:trigger NextChunk(h', b)} :: b in h'.chunks && b != r ==> NextChunk(h', b) == NextChunk(h, b))
  {
    PrevTag(h, a);
    var h', r := MergePrev(h, a).0, MergePrev(h, a).1;
    MergedPrevNext(h, a, r);
    forall b: nat | b in h'.chunks && b != h'.last
      ensures b < |h'.size| && h'.size[b] >= MIN_ALLOC_SIZE && h'.size[b] % 8 == 0 && NextChunk(h', b) in h'.chunks
    {
      MergedPrevNext(h, a, b);
    }
    forall b: nat, c: nat | b in h'.chunks && c in h'.chunks && b < c ensures NextChunk(h', b) <= c {
      MergedPrevNext(h, a, b);
      assert NextChunk(h, b) <= c && (b == r ==> NextChunk(h, a) <= c);
    }
  }

  lemma AloneTag(h: Heap, a: nat, b: nat)
    requires HalfFreed(h, a) && PrevReadable(h, a) && h.prevSize[a] == BOTH_CHUNKS_USED
    requires b in h.chunks && b != h.last && Tiled(MergePrev(h, a).0)
    ensures TagOk(MergePrev(h, a).0, b)
  {
    MergePrevTiles(h, a);
    PrevTag(h, a);
    if b != a {
      assert TagOk(h, b);
      if NextChunk(h, b) != a { SameTag(h, MergePrev(h, a).0, b); }
    }
  }

  lemma MergedOwnTag(h: Heap, a: nat, h': Heap, p: nat)
    requires HalfFreed(h, a) && PrevReadable(h, a) && h.prevSize[a] != BOTH_CHUNKS_USED && (h', p) == MergePrev(h, a)
    requires Tiled(h') && p in h'.chunks && p != h'.last && p in h.free && NextChunk(h', p) == NextChunk(h, a)
    ensures TagOk(h', p)
  {
    hide Tiled, Binned;
  }

  lemma MergedOther(h: Heap, a: nat, b: nat, h': Heap, p: nat)
    requires HalfFreed(h, a) && PrevReadable(h, a) && h.prevSize[a] != BOTH_CHUNKS_USED && (h', p) == MergePrev(h, a)
    requires b in h.chunks && b != a && b != p && b != h.last
    ensures b in h'.chunks && b != h'.last && h'.free == h.free && b < |h.size| && b < |h'.size|
    ensures Tiled(h) && TagOk(h, b)
    ensures var n := NextChunk(h, b);
      NextChunk(h', b) == n && n < |h.prevSize| && n < |h'.prevSize| && h'.prevSize[n] == h.prevSize[n]
  {
    hide TagOk, Binned;
    MergedPrevNext(h, a, b);
    PrevTag(h, a);
    if NextChunk(h, b) == NextChunk(h, a) { NextInjective(h, a, b); }
    if NextChunk(h, b) == a { NextInjective(h, p, b); }
    assert TagOk(h, b);
  }

  lemma MergedOwn(h: Heap, a: nat, h': Heap, p: nat)
    requires HalfFreed(h, a) && PrevReadable(h, a) && h.prevSize[a] != BOTH_CHUNKS_USED && (h', p) == MergePrev(h, a)
    ensures p in h'.chunks && p != h'.last && p in h.free && p < |h'.size| && a < |h.size| && NextChunk(h', p) == NextChunk(h, a)
  {
    hide TagOk, Binned;
    MergePrevTiles(h, a);
    PrevTag(h, a);
  }

  lemma MergedTag(h: Heap, a: nat, b: nat)
    requires HalfFreed(h, a) && PrevReadable(h, a) && h.prevSize[a] != BOTH_CHUNKS_USED
    requires b in h.chunks && b != a && b != h.last && Tiled(MergePrev(h, a).0)
    ensures TagOk(MergePrev(h, a).0, b)
  {
    hide TagOk, Binned, Tiled, MergePrev, HalfFreed;
    var h', p := MergePrev(h, a).0, MergePrev(h, a).1;
    if b == p {
      MergedOwn(h, a, h', p);
      MergedOwnTag(h, a, h', p);
    } else {
      MergedOther(h, a, b, h', p);
      SameTag(h, h', b);
    }
  }

  lemma MergePrevTag(h: Heap, a: nat, b: nat)
    requires HalfFreed(h, a) && PrevReadable(h, a)
    requires b in MergePrev(h, a).0.chunks && b != h.last && Tiled(MergePrev(h, a).0)
    ensures TagOk(MergePrev(h, a).0, b)
  {
    if h.prevSize[a] == BOTH_CHUNKS_USED { AloneTag(h, a, b); } else { MergedTag(h, a, b); }
  }

  /** After both halves, with the chunk put into its bin. */
  function Freed(h: Heap, a: nat): Heap
    requires NextReadable(h, a) && PrevReadable(MergeNext(h, a), a)
    requires MergePrev(MergeNext(h, a), a).1 < |h.size|
  {
    var (h', r) := MergePrev(MergeNext(h, a), a);
    h'.(bins := InsertUnsorted(h'.bins, LargeBinIndex(h'.size[r]), r))
  }

  lemma MergePrevBinned(h: Heap, a: nat)
    requires HalfFreed(h, a) && PrevReadable(h, a) && MergePrev(h, a).1 < |h.size|
    ensures var h', r := MergePrev(h, a).0, MergePrev(h, a).1;
      |h'.size| == |h.size| && Binned(h', h'.free - {r}) && r in h'.free
      && Binned(h'.(bins := InsertUnsorted(h'.bins, LargeBinIndex(h'.size[r]), r)), h'.free)
  {
    PrevTag(h, a);
    var h', r := MergePrev(h, a).0, MergePrev(h, a).1;
    if h.prevSize[a] == BOTH_CHUNKS_USED {
      assert h'.free - {a} == h.free;
      ResizeKeeps(h, h', h.free);
    } else {
      var h1 := h.(bins := h'.bins);
      UnlinkKeeps(h, h1, h.free, r);
      ResizeKeeps(h1, h', h.free - {r});
    }
    InsertKeeps(h', h'.(bins := InsertUnsorted(h'.bins, LargeBinIndex(h'.size[r]), r)), h'.free - {r}, r);
    assert h'.free - {r} + {r} == h'.free;
  }

  lemma MergePrevTagged(h: Heap, a: nat)
    requires HalfFreed(h, a)
    ensures PrevReadable(h, a) && Tiled(MergePrev(h, a).0) && Tagged(MergePrev(h, a).0)
  {
    MergePrevTiles(h, a);
    PrevTag(h, a);
    var h' := MergePrev(h, a).0;
    assert h.first < NextChunk(h, a);
    forall b: nat | b in h'.chunks && b != h'.last ensures TagOk(h', b) { MergePrevTag(h, a, b); }
  }

  lemma MergePrevOk(h: Heap, a: nat)
    requires HalfFreed(h, a)
    ensures PrevReadable(h, a) && MergePrev(h, a).1 < |h.size|
    ensures var h', r := MergePrev(h, a).0, MergePrev(h, a).1;
      |h'.bins| == N_BINS && r < |h'.size| && HeapOk(h'.(bins := InsertUnsorted(h'.bins, LargeBinIndex(h'.size[r]), r)))
  {
    MergePrevTiles(h, a);
    MergePrevTagged(h, a);
    MergePrevBinned(h, a);
    var h', r := MergePrev(h, a).0, MergePrev(h, a).1;
    var h2 := h'.(bins := InsertUnsorted(h'.bins, LargeBinIndex(h'.size[r]), r));
    SameTiles(h', h2);
    SameTags(h', h2);
  }

  lemma SameTags(h: Heap, h': Heap)
    requires Tiled(h) && Tagged(h) && Tiled(h') && h' == h.(bins := h'.bins)
    ensures Tagged(h')
  {
    forall b: nat | b in h'.chunks && b != h'.last ensures TagOk(h', b) { assert TagOk(h, b); }
  }

  /** Freeing merges with both neighbours and keeps everything in order. */
  lemma FreedOk(h: Heap, a: nat)
    requires CanFree(h, a)
    ensures NextReadable(h, a) && HalfFreed(MergeNext(h, a), a) && PrevReadable(MergeNext(h, a), a)
    ensures MergePrev(MergeNext(h, a), a).1 < |h.size|
    ensures HeapOk(Freed(h, a)) && Used(Freed(h, a)) == Used(h) - {a}
    ensures UsedWeight(Freed(h, a)) + h.size[a] + OVERHEAD == UsedWeight(h)
  {
    MergeNextHalf(h, a);
    MergePrevOk(MergeNext(h, a), a);
    FreedUsed(h, a);
  }

  lemma FreedUsed(h: Heap, a: nat)
    requires CanFree(h, a) && NextReadable(h, a) && HalfFreed(MergeNext(h, a), a) && Used(MergeNext(h, a)) == Used(h)
    requires PrevReadable(MergeNext(h, a), a) && MergePrev(MergeNext(h, a), a).1 < |h.size| && Tiled(Freed(h, a))
    ensures Used(Freed(h, a)) == Used(h) - {a} && forall x :: x in Used(Freed(h, a)) ==> Freed(h, a).size[x] == h.size[x]
    ensures UsedWeight(Freed(h, a)) + h.size[a] + OVERHEAD == UsedWeight(h)
  {
    FreedSets(h, a);
    var h3 := Freed(h, a);
    WeightWithout(Used(h), h.size, a);
    WeightFrame(Used(h3), h.size, h3.size);
  }

  lemma FreedSets(h: Heap, a: nat)
    requires CanFree(h, a) && NextReadable(h, a) && HalfFreed(MergeNext(h, a), a) && Used(MergeNext(h, a)) == Used(h)
    requires PrevReadable(MergeNext(h, a), a) && MergePrev(MergeNext(h, a), a).1 < |h.size|
    ensures var h' := Freed(h, a);
      && Used(h') == Used(h) - {a} && |h'.size| == |h.size|
      && (forall x :: x in Used(h') ==> x < |h.size| && h'.size[x] == h.size[x])
      && (forall c :: c in h.chunks && c !in h.free && c != a ==> c in h'.chunks && c !in h'.free)
  {
    hide Binned, TagOk;
    NextTag(h, a);
    PrevTag(MergeNext(h, a), a);
    PrevSets(MergeNext(h, a), a);
  }

  lemma PrevSets(h: Heap, a: nat)
    requires HalfFreed(h, a) && PrevReadable(h, a)
    requires h.prevSize[a] != BOTH_CHUNKS_USED ==> a - CHUNK_HEADER_SIZE - h.prevSize[a] in h.free
    ensures var h' := MergePrev(h, a).0;
      && Used(h') == Used(h) - {a} && |h'.size| == |h.size|
      && (forall x :: x in Used(h') ==> x < |h.size| && h'.size[x] == h.size[x])
      && (forall c :: c in h.chunks && c !in h.free && c != a ==> c in h'.chunks && c !in h'.free)
  {
    hide Binned, TagOk;
    assert Used(MergePrev(h, a).0) == Used(h) - {a};
  }

  // ----- the best fit

  /** x is a free chunk of the smallest size that fits. */
  ghost predicate BestFit(h: Heap, x: nat, request: nat)
    requires HeapOk(h)
  {
    && x in h.free && h.size[x] >= request
    && forall y :: y in h.free && h.size[y] >= request ==> h.size[x] <= h.size[y]
  }

  ghost predicate NothingFits(h: Heap, request: nat)
    requires HeapOk(h)
  {
    forall y :: y in h.free ==> h.size[y] < request
  }

  /** In a bin without an unsorted tail, a free chunk is in the column of its
      size. */
  lemma FreeInColumn(h: Heap, i: nat, y: nat) returns (j: nat)
    requires HeapOk(h) && i < N_BINS && h.bins[i].unsorted == [] && y in h.free && LargeBinIndex(h.size[y]) == i
    ensures j < |h.bins[i].sorted| && y in h.bins[i].sorted[j] && |h.bins[i].sorted[j]| > 0 && h.bins[i].sorted[j][0] < |h.size|
    ensures h.size[h.bins[i].sorted[j][0]] == h.size[y]
  {
    assert BinOk(h.bins[i], i, h.free, h.size);
    assert Members(h.bins[i])[y] == 1;
    j := FindInFlat(h.bins[i].sorted, y);
    assert UniformColumn(h.bins[i].sorted[j], h.size);
  }

  lemma ColumnIsFree(h: Heap, i: nat, j: nat, x: nat)
    requires HeapOk(h) && i < N_BINS && j < |h.bins[i].sorted| && x in h.bins[i].sorted[j]
    ensures x in h.free && LargeBinIndex(h.size[x]) == i && |h.bins[i].sorted[j]| > 0
    ensures h.bins[i].sorted[j][0] < |h.size| && h.size[x] == h.size[h.bins[i].sorted[j][0]]
  {
    assert BinOk(h.bins[i], i, h.free, h.size);
    InFlat(h.bins[i].sorted, j, x);
    assert x in Members(h.bins[i]);
    assert Members(h.bins[i])[x] > 0;
    assert UniformColumn(h.bins[i].sorted[j], h.size);
  }

  /** Looking through the bins from that of the request: the bins before i that
      were looked at hold nothing that fits. */
  ghost predicate NoneBefore(h: Heap, i: nat, request: nat)
    requires HeapOk(h)
  {
    forall y :: y in h.free && h.size[y] >= request ==> LargeBinIndex(h.size[y]) >= i
  }

  lemma LastThatFits(h: Heap, i: nat, k: nat, request: nat, x: nat)
    requires HeapOk(h) && i < N_BINS && h.bins[i].unsorted == [] && k < |h.bins[i].sorted| && x in h.bins[i].sorted[k]
    requires NoneBefore(h, i, request) && |h.bins[i].sorted[k]| > 0 && h.bins[i].sorted[k][0] < |h.size|
    requires h.size[h.bins[i].sorted[k][0]] >= request
    requires forall j :: k < j < |h.bins[i].sorted| ==> |h.bins[i].sorted[j]| > 0 && h.bins[i].sorted[j][0] < |h.size| && h.size[h.bins[i].sorted[j][0]] < request
    ensures BestFit(h, x, request)
  {
    ColumnIsFree(h, i, k, x);
    forall y | y in h.free && h.size[y] >= request ensures h.size[x] <= h.size[y] {
      if LargeBinIndex(h.size[y]) == i {
        var j := FreeInColumn(h, i, y);
        assert BinOk(h.bins[i], i, h.free, h.size);
      } else {
        IndexMonotone(h.size[x], h.size[y]);
      }
    }
  }

  lemma NoneHere(h: Heap, i: nat, request: nat)
    requires HeapOk(h) && i < N_BINS && NoneBefore(h, i, request) && h.bins[i].unsorted == []
    requires forall j :: 0 <= j < |h.bins[i].sorted| ==> |h.bins[i].sorted[j]| > 0 && h.bins[i].sorted[j][0] < |h.size| && h.size[h.bins[i].sorted[j][0]] < request
    ensures NoneBefore(h, i + 1, request)
  {
    forall y | y in h.free && h.size[y] >= request ensures LargeBinIndex(h.size[y]) >= i + 1 {
      if LargeBinIndex(h.size[y]) == i { var j := FreeInColumn(h, i, y); }
    }
  }

  /** Sorting a bin changes nothing else. */
  lemma SortedKeeps(h: Heap, h': Heap, i: nat, b: Bin)
    requires HeapOk(h) && i < N_BINS && BinSorted(b, h.size) && Members(b) == Members(h.bins[i]) && h' == h.(bins := h.bins[i := b])
    ensures HeapOk(h')
  {
    SameTiles(h, h');
    SameTags(h, h');
    assert BinOk(h.bins[i], i, h.free, h.size);
    forall x: nat ensures Members(b)[x] == if x in h.free && LargeBinIndex(h.size[x]) == i then 1 else 0 {
      assert Members(h.bins[i])[x] == if x in h.free && LargeBinIndex(h.size[x]) == i then 1 else 0;
    }
    assert BinOk(b, i, h.free, h.size);
    forall k | 0 <= k < N_BINS ensures BinOk(h'.bins[k], k, h'.free, h'.size) {
      assert BinOk(h.bins[k], k, h.free, h.size);
    }
  }

  lemma NotEmpty(b: Bin, size: seq<nat>)
    requires BinSorted(b, size) && (b.sorted != [] || b.unsorted != [])
    ensures Members(b) != multiset{}
  {
    if b.sorted != [] {
      assert UniformColumn(b.sorted[0], size) && b.sorted[0][0] in b.sorted[0];
      InFlat(b.sorted, 0, b.sorted[0][0]);
      assert b.sorted[0][0] in Members(b);
    } else {
      assert b.unsorted[0] in multiset(b.unsorted);
      assert b.unsorted[0] in Members(b);
    }
  }

  lemma StillNothing(h: Heap, h': Heap, request: nat)
    requires HeapOk(h) && HeapOk(h') && h' == h.(bins := h'.bins) && NothingFits(h', request)
    ensures NothingFits(h, request)
  {
  }

  lemma Grabbed(h: Heap, h': Heap, i: nat, x: nat, request: nat)
    requires HeapOk(h) && i < N_BINS && BestFit(h, x, request) && LargeBinIndex(h.size[x]) == i
    requires request >= MIN_ALLOC_SIZE && request % 8 == 0
    requires h' == h.(bins := h.bins[i := Unlinked(h.bins[i], x)])
    ensures CanTake(h', x, request) && UsedWeight(h') == UsedWeight(h)
  {
    UnlinkKeeps(h, h', h.free, x);
    SameTiles(h, h');
    SameTags(h, h');
  }

  /** The arena can end at newLast: it does already, or the chunk before the end
      marker is free and big enough to lose what is behind. */
  ghost predicate CanShrink(h: Heap, newLast: nat) {
    newLast == h.last || exists p :: p in h.free && p < |h.size| && NextChunk(h, p) == h.last && p + CHUNK_STRUCT_SIZE <= newLast
  }

  /** What _large_free means: the chunk is used no more, and every other used one
      is as it was. */
  ghost predicate Released(h: Heap, h': Heap, a: nat) {
    && Used(h') == Used(h) - {a}
    && (forall c :: c in h.chunks && c !in h.free && c != a ==> c in h'.chunks && c !in h'.free)
    && |h'.size| == |h.size| && (forall u :: u in Used(h') && u < |h.size| ==> h'.size[u] == h.size[u])
    && (exists r :: r in h'.free && r <= a < |h.size| && r < |h'.size| && NextChunk(h, a) <= NextChunk(h', r))
  }

  lemma FreedReleases(h: Heap, a: nat)
    requires CanFree(h, a)
    ensures NextReadable(h, a) && PrevReadable(MergeNext(h, a), a) && MergePrev(MergeNext(h, a), a).1 < |h.size|
    ensures Released(h, Freed(h, a), a)
  {
    MergeNextHalf(h, a);
    MergePrevOk(MergeNext(h, a), a);
    FreedSets(h, a);
    FreedCovers(h, a);
  }

  /** The free chunk that results covers the freed one. */
  lemma FreedCovers(h: Heap, a: nat)
    requires CanFree(h, a) && NextReadable(h, a) && HalfFreed(MergeNext(h, a), a) && PrevReadable(MergeNext(h, a), a)
    requires MergePrev(MergeNext(h, a), a).1 < |h.size|
    ensures var h', r := Freed(h, a), MergePrev(MergeNext(h, a), a).1;
      r in h'.free && r <= a < |h.size| && r < |h'.size| && NextChunk(h, a) <= NextChunk(h', r)
  {
    hide Tiled, Tagged, Binned, MergeNext, MergePrev;
    NextCovers(h, a);
    PrevCovers(MergeNext(h, a), a);
  }

  lemma NextCovers(h: Heap, a: nat)
    requires CanFree(h, a) && NextReadable(h, a)
    ensures |MergeNext(h, a).size| == |h.size| && NextChunk(h, a) <= NextChunk(MergeNext(h, a), a)
  {
    hide Binned, TagOk;
    NextTag(h, a);
    if NextChunk(h, a) in h.free { MergedNextNext(h, a, a); }
  }

  lemma PrevCovers(h: Heap, a: nat)
    requires HalfFreed(h, a) && PrevReadable(h, a)
    ensures var h', r := MergePrev(h, a).0, MergePrev(h, a).1;
      r in h'.free && r <= a < |h.size| == |h'.size| && NextChunk(h', r) == NextChunk(h, a)
  {
    hide Binned, TagOk;
    PrevTag(h, a);
  }

  lemma InitOk(h: Heap, h': Heap)
    requires |h.size| == |h.prevSize| && h.first + CHUNK_STRUCT_SIZE <= h.last && h.last + CHUNK_HEADER_SIZE <= |h.size|
    requires h.chunks == {h.first, h.last} && h.free == {h.first}
    requires h.size[h.first] == h.last - h.first - CHUNK_HEADER_SIZE && h.size[h.first] % 8 == 0 && h.size[h.last] == END_MARKER
    requires h.prevSize[h.first] == THIS_CHUNK_FREE && h.prevSize[h.last] == h.size[h.first]
    requires |h.bins| == N_BINS && forall i :: 0 <= i < N_BINS ==> h.bins[i] == Bin([], [])
    requires h' == h.(bins := InsertUnsorted(h.bins, LargeBinIndex(h.size[h.first]), h.first))
    ensures HeapOk(h')
  {
    assert NextChunk(h', h.first) == h.last;
    assert TagOk(h', h.first);
    forall i | 0 <= i < N_BINS ensures BinOk(h.bins[i], i, {}, h.size) {}
    InsertKeeps(h, h', {}, h.first);
    assert {} + {h.first} == h'.free;
  }

  /** All chunks lie at multiples of 8 from the first. */
  lemma Aligned(h: Heap, b: nat, a: nat)
    requires Tiled(h) && a in h.chunks && b in h.chunks && b <= a && b % 8 == 0
    ensures a % 8 == 0
    decreases a - b
  {
    if b < a {
      assert NextChunk(h, b) in h.chunks && NextChunk(h, b) <= a;
      Aligned(h, NextChunk(h, b), a);
    }
  }

  /** The tag of the end marker says whether the chunk before it is free. */
  lemma LastTag(h: Heap)
    requires HeapOk(h) && h.first < h.last
    ensures h.prevSize[h.last] != BOTH_CHUNKS_USED ==>
      && h.prevSize[h.last] + CHUNK_HEADER_SIZE <= h.last
      && var p := h.last - CHUNK_HEADER_SIZE - h.prevSize[h.last];
      p in h.free && p < |h.size| && NextChunk(h, p) == h.last && forall q: nat {:trigger NextChunk(h, q)} :: q in h.free && NextChunk(h, q) == h.last ==> q == p
    ensures h.prevSize[h.last] == BOTH_CHUNKS_USED ==> forall p: nat {:trigger NextChunk(h, p)} :: p in h.free && p < |h.size| ==> NextChunk(h, p) != h.last
  {
    var p := Predecessor(h, h.first, h.last);
    assert TagOk(h, p);
    forall q: nat | q in h.free && q < |h.size| && NextChunk(h, q) == h.last ensures q == p { NextInjective(h, p, q); }
  }

  lemma Shrinkable(h: Heap, newLast: nat)
    requires HeapOk(h) && h.first < h.last && newLast < h.last
    ensures h.prevSize[h.last] == BOTH_CHUNKS_USED ==> !CanShrink(h, newLast)
    ensures h.prevSize[h.last] != BOTH_CHUNKS_USED ==>
      && h.prevSize[h.last] + CHUNK_HEADER_SIZE <= h.last
      && var p := h.last - CHUNK_HEADER_SIZE - h.prevSize[h.last];
      p in h.free && p < |h.size| && NextChunk(h, p) == h.last && (CanShrink(h, newLast) <==> p + CHUNK_STRUCT_SIZE <= newLast)
  {
    LastTag(h);
  }

  lemma AlreadyThere(h: Heap)
    ensures CanShrink(h, h.last)
  {
  }

  /** The arena ends at newLast instead, inside the free chunk p at its end. */
  function Shrunk(h: Heap, p: nat, newLast: nat): Heap
    requires p + CHUNK_STRUCT_SIZE <= newLast < h.last < |h.size| == |h.prevSize|
  {
    var rest := newLast - p - CHUNK_HEADER_SIZE;
    h.(size := h.size[p := rest][newLast := END_MARKER], prevSize := h.prevSize[newLast := rest],
       chunks := h.chunks - {h.last} + {newLast}, last := newLast)
  }

  ghost predicate ShrinksTo(h: Heap, p: nat, newLast: nat) {
    && Tiled(h) && Tagged(h) && Binned(h, h.free - {p}) && h.first % 8 == 0 && newLast % 8 == 0
    && p in h.free && NextChunk(h, p) == h.last && p + CHUNK_STRUCT_SIZE <= newLast < h.last
  }

  lemma ShrunkNext(h: Heap, p: nat, newLast: nat, a: nat)
    requires ShrinksTo(h, p, newLast) && a in h.chunks && a != h.last
    ensures newLast !in h.chunks && a <= p && a < |h.size|
    ensures NextChunk(Shrunk(h, p, newLast), a) == if a == p then newLast else NextChunk(h, a)
  {
    assert p < newLast < NextChunk(h, p);
  }

  lemma ShrunkTiles(h: Heap, p: nat, newLast: nat)
    requires ShrinksTo(h, p, newLast)
    ensures Tiled(Shrunk(h, p, newLast))
  {
    var h' := Shrunk(h, p, newLast);
    Aligned(h, h.first, p);
    ShrunkNext(h, p, newLast, p);
    forall a: nat | a in h'.chunks && a != newLast
      ensures a < |h'.size| && h'.size[a] >= MIN_ALLOC_SIZE && h'.size[a] % 8 == 0 && NextChunk(h', a) in h'.chunks
    {
      ShrunkNext(h, p, newLast, a);
      if a != p && NextChunk(h, a) == h.last { NextInjective(h, p, a); }
    }
    forall a: nat | a in h'.chunks ensures h.first <= a <= newLast {
      if a != newLast { ShrunkNext(h, p, newLast, a); }
    }
    forall a: nat, b: nat | a in h'.chunks && b in h'.chunks && a < b ensures NextChunk(h', a) <= b {
      ShrunkNext(h, p, newLast, a);
      if a != p { assert NextChunk(h, a) <= p; }
    }
  }

  lemma ShrunkTags(h: Heap, p: nat, newLast: nat)
    requires ShrinksTo(h, p, newLast)
    ensures Tiled(Shrunk(h, p, newLast)) && Tagged(Shrunk(h, p, newLast))
  {
    ShrunkTiles(h, p, newLast);
    ShrunkNext(h, p, newLast, p);
    var h' := Shrunk(h, p, newLast);
    forall a: nat | a in h'.chunks && a != newLast ensures TagOk(h', a) {
      ShrunkNext(h, p, newLast, a);
      assert TagOk(h, a) && NextChunk(h, a) != newLast;
    }
  }

  lemma ShrunkOk(h: Heap, p: nat, newLast: nat)
    requires ShrinksTo(h, p, newLast)
    ensures var h' := Shrunk(h, p, newLast);
      && Tiled(h') && Tagged(h') && Binned(h', h.free - {p}) && Used(h') == Used(h) && UsedWeight(h') == UsedWeight(h)
      && forall u :: u in Used(h) ==> h'.size[u] == h.size[u]
  {
    ShrunkTags(h, p, newLast);
    ShrunkNext(h, p, newLast, p);
    var h' := Shrunk(h, p, newLast);
    ResizeKeeps(h, h', h.free - {p});
    assert Used(h') == Used(h);
    WeightFrame(Used(h), h.size, h'.size);
  }

  /** The used chunks before `chunk` were dealt with. */
  ghost predicate Swept(h: Heap, h': Heap, keep: set<nat>, chunk: nat) {
    && |h'.size| == |h.size|
    && (forall u :: u in Used(h') <==> u in Used(h) && (u in keep || u >= chunk))
    && (forall u :: u in Used(h') && u < |h.size| ==> h'.size[u] == h.size[u])
  }

  lemma FirstUsed(h: Heap, chunk: nat)
    requires HeapOk(h)
    requires chunk == if h.prevSize[h.first] == THIS_CHUNK_FREE then NextChunk(h, h.first) else h.first
    ensures chunk in h.chunks && chunk !in h.free && forall u :: u in Used(h) ==> u >= chunk
  {
    if h.first in h.free { assert TagOk(h, h.first); }
  }

  /** The next chunk that is not free. */
  lemma NextUsed(h: Heap, chunk: nat, next: nat)
    requires HeapOk(h) && chunk in Used(h) && NextChunk(h, chunk) < |h.prevSize|
    requires h.prevSize[NextChunk(h, chunk)] == THIS_CHUNK_FREE ==> NextChunk(h, chunk) < |h.size|
    requires next == if h.prevSize[NextChunk(h, chunk)] == THIS_CHUNK_FREE then NextChunk(h, NextChunk(h, chunk)) else NextChunk(h, chunk)
    ensures next in h.chunks && next !in h.free && chunk < next <= h.last
    ensures forall u :: u in Used(h) && u > chunk ==> u >= next
  {
    assert TagOk(h, chunk);
    var m := NextChunk(h, chunk);
    if m in h.free { assert TagOk(h, m); }
  }

  lemma SizeTaken(h: Heap, x: nat, request: nat)
    requires CanTake(h, x, request)
    ensures NextChunk(h, x) < |h.size|
    ensures var h' := Take(h, x, request);
      |h'.size| == |h.size| && x < |h'.size| && request <= h'.size[x] < request + CHUNK_STRUCT_SIZE && x in Used(h')
  {
    assert NextChunk(h, x) in h.chunks;
    if h.size[x] - request >= CHUNK_STRUCT_SIZE { CutNext(h, x, request, x); }
  }

  lemma AllocatedBy(h: Heap, h1: Heap, h2: Heap, h3: Heap, x: nat, request: nat)
    requires HeapOk(h) && HeapOk(h1) && h1 == h.(bins := h1.bins) && BestFit(h1, x, request)
    requires CanTake(h2, x, request) && h2 == h1.(bins := h2.bins) && h3 == Take(h2, x, request)
    ensures Allocated(h, h3, x, request)
  {
    hide TagOk, BinOk;
    SizeTaken(h2, x, request);
    TakeUses(h2, x, request);
    SameTake(h, h2, x, request);
  }

  /** What is taken does not depend on the bins. */
  lemma SameTake(h: Heap, h2: Heap, x: nat, request: nat)
    requires CanTake(h2, x, request) && |h.bins| == N_BINS && h2 == h.(bins := h2.bins) && NextChunk(h2, x) < |h2.size|
    ensures x < |h.size| == |h.prevSize| && request <= h.size[x] && NextChunk(h, x) < |h.size|
    ensures Take(h2, x, request).(bins := []) == Take(h, x, request).(bins := [])
  {
    hide TagOk, BinOk;
  }

  /** What a successful allocation does: the best fit becomes a used chunk, at
      most 48 bytes bigger than asked for, and all else stays. */
  ghost predicate Allocated(h: Heap, h': Heap, x: nat, request: nat)
    requires HeapOk(h) && request >= MIN_ALLOC_SIZE
  {
    && BestFit(h, x, request) && |h'.size| == |h.size| && NextChunk(h, x) < |h.size| && |h.prevSize| == |h.size|
    && h'.(bins := []) == Take(h, x, request).(bins := [])
    && Used(h') == Used(h) + {x} && x !in Used(h) && request <= h'.size[x] < request + CHUNK_STRUCT_SIZE
  }
}
