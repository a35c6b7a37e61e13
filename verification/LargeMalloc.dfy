/** The large-block allocator of largemalloc.c in place: chunk headers and links are
    rewritten, and the arena goes from one state of module LargeHeap to another. */
module LargeMalloc {
  import opened Bins
  import opened BinLinks
  import opened BinLists
  import opened LargeHeap
  import opened Pages

  /** A chunk that is not free is in no bin, and a free one is in the bin of its
      size. */
  lemma NotBinned(h: Heap, free: set<nat>, x: nat)
    requires Binned(h, free) && x !in free
    ensures Nowhere(h.bins, x)
  {
    forall i | 0 <= i < |h.bins| ensures !In(h.bins[i], x) {
      assert BinOk(h.bins[i], i, free, h.size);
      assert Members(h.bins[i])[x] == 0;
      InMembers(h.bins[i], x);
    }
  }

  lemma IsBinned(h: Heap, free: set<nat>, x: nat)
    requires Binned(h, free) && x in free
    ensures In(h.bins[LargeBinIndex(h.size[x])], x)
  {
    var i := LargeBinIndex(h.size[x]);
    assert BinOk(h.bins[i], i, free, h.size);
    assert Members(h.bins[i])[x] == 1;
    InMembers(h.bins[i], x);
  }

  /** Where the rest of a chunk goes. */
  lemma CutPlace(h: Heap, x: nat, request: nat)
    requires CanTake(h, x, request) && h.size[x] - request >= CHUNK_STRUCT_SIZE
    ensures var cut := x + CHUNK_HEADER_SIZE + request;
      x < cut < NextChunk(h, x) < |h.size| && |h.size| == |h.prevSize| && |h.bins| == N_BINS && Nowhere(h.bins, cut)
  {
    CutNext(h, x, request, x);
    assert NextChunk(h, x) in h.chunks;
    NotBinned(h, h.free - {x}, x + CHUNK_HEADER_SIZE + request);
  }

  class Arena {
    const size: array<nat>
    const prevSize: array<nat>
    const lists: Lists          // largebins, and d and u of the chunks
    const ctl: PagesCtl
    var first: nat              // first_chunk
    var last: nat               // last_chunk
    ghost var chunks: set<nat>
    ghost var free: set<nat>

    ghost function View(): Heap
      reads this, size, prevSize, lists
    {
      Heap(size[..], prevSize[..], lists.bins, first, last, chunks, free)
    }

    /** The memory of the link fields. */
    function Links(): set<object> { {lists, lists.next, lists.prev, lists.up, lists.down} }

    /** The links are right, and apart from the headers. */
    ghost predicate LinksOk()
      reads size, Links()
    {
      && size != prevSize && {size, prevSize} !! {lists.next, lists.prev}
      && lists.memory == size.Length && lists.Valid()
    }

    ghost predicate Valid()
      reads this, size, prevSize, Links()
    {
      LinksOk() && HeapOk(View())
    }

    /** The part of total_allocated that has nothing to do with this arena. */
    ghost function Elsewhere(): int
      requires Tiled(View())
      reads this, size, prevSize, lists, ctl
    {
      ctl.totalAllocated - UsedWeight(View())
    }

    /** sort_bin */
    method Sort(i: nat)
      requires Valid() && i < N_BINS
      modifies Links()
      ensures Valid() && View() == old(View()).(bins := View().bins)
      ensures lists.bins[i].unsorted == [] && UsedWeight(View()) == old(UsedWeight(View()))
      ensures Members(lists.bins[i]) == old(Members(lists.bins[i]))
    {
      ghost var h := View();
      assert BinOk(h.bins[i], i, h.free, h.size);
      lists.SortBin(i, size);
      SortedKeeps(h, View(), i, lists.bins[i]);
    }

    /** Every chunk of this column would be the best fit. */
    ghost predicate FitColumn(h: Heap, i: nat, k: nat, scan: nat, request: nat) {
      && HeapOk(h) && i < N_BINS && k < |h.bins[i].sorted| && |h.bins[i].sorted[k]| > 0 && scan == h.bins[i].sorted[k][0]
      && forall x :: x in h.bins[i].sorted[k] ==> BestFit(h, x, request) && LargeBinIndex(h.size[x]) == i
    }

    /** Finds the chunk to use: in the bin of the request from its end, then the
        smallest chunk of the next bin that is not empty. */
    method FindFit(request: nat) returns (found: bool, scan: nat, ghost i: nat, ghost k: nat)
      requires Valid()
      modifies Links()
      ensures Valid() && View() == old(View()).(bins := View().bins)
      ensures UsedWeight(View()) == old(UsedWeight(View()))
      ensures if found then FitColumn(View(), i, k, scan, request) else NothingFits(View(), request)
    {
      hide Tiled, Tagged, Binned, FitColumn, BestFit, UsedWeight;
      var index := LargeBinIndex(request);
      Sort(index);
      NoneBelow(View(), request);
      found, scan, i, k := ScanBin(index, request);
      if found {
        return;
      }
      index := index + 1;
      while index < N_BINS
        invariant index <= N_BINS && Valid() && View() == old(View()).(bins := View().bins)
        invariant UsedWeight(View()) == old(UsedWeight(View()))
        invariant NoneBefore(View(), index, request) && index > LargeBinIndex(request) && !found
      {
        var empty := lists.IsEmpty(index);
        if !empty {
          scan, i, k := TakeLast(index, request);
          found := true;
          return;
        }
        NoneHere(View(), index, request);
        index := index + 1;
      }
    }

    lemma NoneBelow(h: Heap, request: nat)
      requires HeapOk(h)
      ensures LargeBinIndex(request) < N_BINS && NoneBefore(h, LargeBinIndex(request), request)
      ensures NoneBefore(h, N_BINS, request) ==> NothingFits(h, request)
    {
      forall y | y in h.free && h.size[y] >= request ensures LargeBinIndex(h.size[y]) >= LargeBinIndex(request) { IndexMonotone(request, h.size[y]); }
    }

    /** The scan of one sorted bin from its end. */
    method ScanBin(index: nat, request: nat) returns (found: bool, scan: nat, ghost i: nat, ghost k: nat)
      requires Valid() && index < N_BINS && lists.bins[index].unsorted == [] && NoneBefore(View(), index, request)
      ensures if found then BestFit(View(), scan, request) else NoneBefore(View(), index + 1, request)
      ensures found ==> FitColumn(View(), i, k, scan, request)
    {
      ghost var h := View();
      assert BinOk(h.bins[index], index, h.free, h.size);
      i := index;
      found, scan, k := lists.Scan(index, request, size);
      ColumnsThere(h, index);
      if found {
        ColumnFits(h, index, k, request);
      } else {
        NoneHere(h, index, request);
      }
    }

    lemma ColumnsThere(h: Heap, i: nat)
      requires HeapOk(h) && i < N_BINS
      ensures forall j :: 0 <= j < |h.bins[i].sorted| ==> |h.bins[i].sorted[j]| > 0 && h.bins[i].sorted[j][0] < |h.size|
    {
      assert BinOk(h.bins[i], i, h.free, h.size);
      forall j | 0 <= j < |h.bins[i].sorted| ensures |h.bins[i].sorted[j]| > 0 && h.bins[i].sorted[j][0] < |h.size| {
        assert UniformColumn(h.bins[i].sorted[j], h.size);
      }
    }

    lemma ColumnFits(h: Heap, i: nat, k: nat, request: nat)
      requires HeapOk(h) && i < N_BINS && h.bins[i].unsorted == [] && k < |h.bins[i].sorted| && NoneBefore(h, i, request)
      requires forall j :: 0 <= j < |h.bins[i].sorted| ==> |h.bins[i].sorted[j]| > 0 && h.bins[i].sorted[j][0] < |h.size|
      requires h.size[h.bins[i].sorted[k][0]] >= request
      requires forall j :: k < j < |h.bins[i].sorted| ==> h.size[h.bins[i].sorted[j][0]] < request
      ensures FitColumn(h, i, k, h.bins[i].sorted[k][0], request)
    {
      forall x | x in h.bins[i].sorted[k] ensures BestFit(h, x, request) && LargeBinIndex(h.size[x]) == i {
        LastThatFits(h, i, k, request, x);
        ColumnIsFree(h, i, k, x);
      }
    }

    method TakeLast(index: nat, request: nat) returns (scan: nat, ghost i: nat, ghost k: nat)
      requires Valid() && LargeBinIndex(request) < index < N_BINS && NoneBefore(View(), index, request)
      requires lists.bins[index] != Bin([], [])
      modifies Links()
      ensures Valid() && View() == old(View()).(bins := View().bins)
      ensures UsedWeight(View()) == old(UsedWeight(View()))
      ensures FitColumn(View(), i, k, scan, request)
    {
      hide Tiled, Tagged, Binned, BestFit, FitColumn, Members;
      ghost var h := View();
      Sort(index);
      StillThere(h, index, lists.bins[index]);
      scan := lists.Last(index);
      i, k := index, |lists.bins[index].sorted| - 1;
      LastFits(View(), index, request);
    }

    /** A bin that is not empty still has a chunk after sorting. */
    lemma StillThere(h: Heap, i: nat, b: Bin)
      requires HeapOk(h) && i < N_BINS && h.bins[i] != Bin([], []) && b.unsorted == [] && Members(b) == Members(h.bins[i])
      ensures b.sorted != []
    {
      assert BinOk(h.bins[i], i, h.free, h.size);
      NotEmpty(h.bins[i], h.size);
    }

    lemma LastFits(h: Heap, i: nat, request: nat)
      requires HeapOk(h) && LargeBinIndex(request) < i < N_BINS && NoneBefore(h, i, request)
      requires h.bins[i].unsorted == [] && h.bins[i].sorted != []
      ensures var k := |h.bins[i].sorted| - 1; |h.bins[i].sorted[k]| > 0 && FitColumn(h, i, k, h.bins[i].sorted[k][0], request)
    {
      hide Tagged, TagOk, BestFit, FitColumn, LargeBinIndex;
      var columns, k := h.bins[i].sorted, |h.bins[i].sorted| - 1;
      ColumnsThere(h, i);
      ColumnIsFree(h, i, k, columns[k][0]);
      IndexMonotone(h.size[columns[k][0]], request);
      ColumnFits(h, i, k, request);
    }

    /** unlink_chunk */
    method UnlinkChunk(x: nat)
      requires LinksOk() && Binned(View(), free) && x in free
      modifies Links()
      ensures LinksOk() && View() == old(View()).(bins := View().bins)
      ensures View().bins == old(lists.bins)[LargeBinIndex(size[x]) := Unlinked(old(lists.bins)[LargeBinIndex(size[x])], x)]
    {
      IsBinned(View(), free, x);
      lists.Unlink(LargeBinIndex(size[x]), x);
    }

    /** insert_unsorted */
    method InsertChunk(x: nat)
      requires LinksOk() && x < size.Length && Nowhere(lists.bins, x)
      modifies Links()
      ensures LinksOk() && View() == old(View()).(bins := InsertUnsorted(old(lists.bins), LargeBinIndex(size[x]), x))
    {
      lists.Insert(LargeBinIndex(size[x]), x);
    }

    /** _stm_large_malloc: the address of the data, or 0 if nothing fits. */
    method Malloc(requestSize: nat) returns (data: nat)
      requires Valid() && requestSize % 8 == 0
      modifies this, size, prevSize, ctl, Links()
      ensures Valid() && Elsewhere() == old(Elsewhere())
      ensures var request := if requestSize < MIN_ALLOC_SIZE then MIN_ALLOC_SIZE else requestSize;
        if data == 0 then NothingFits(old(View()), request) && View() == old(View()).(bins := View().bins)
        else data >= CHUNK_HEADER_SIZE && Allocated(old(View()), View(), data - CHUNK_HEADER_SIZE, request)
    {
      hide Tiled, Tagged, Binned, Take, BestFit, NothingFits, CanTake, Allocated;
      var request := if requestSize < MIN_ALLOC_SIZE then MIN_ALLOC_SIZE else requestSize;
      ghost var h := View();
      var found, scan, i, k := FindFit(request);
      ghost var h1 := View();
      if !found {
        StillNothing(h, h1, request);
        return 0;
      }
      var x := lists.Grab(i, k, scan);
      ghost var h2 := View();
      Grabbed(h1, h2, i, x, request);
      Cut(x, request);
      AllocatedBy(h, h1, h2, View(), x, request);
      return x + CHUNK_HEADER_SIZE;
    }

    method Cut(x: nat, request: nat)
      requires LinksOk() && CanTake(View(), x, request)
      modifies this, size, prevSize, ctl, Links()
      ensures Valid() && View() == Take(old(View()), x, request)
      ensures Elsewhere() == old(Elsewhere())
    {
      TakeKeeps(View(), x, request);
      if size[x] - request < CHUNK_STRUCT_SIZE {
        UseWhole(x, request);
      } else {
        UsePart(x, request);
      }
    }

    method UseWhole(x: nat, request: nat)
      requires LinksOk() && CanTake(View(), x, request) && size[x] - request < CHUNK_STRUCT_SIZE
      modifies this, prevSize, ctl
      ensures LinksOk() && View() == Take(old(View()), x, request)
      ensures ctl.totalAllocated == old(ctl.totalAllocated) + size[x] + OVERHEAD
    {
      assert NextChunk(View(), x) in chunks;
      prevSize[x + CHUNK_HEADER_SIZE + size[x]] := BOTH_CHUNKS_USED;
      prevSize[x] := BOTH_CHUNKS_USED;
      free := free - {x};
      ctl.Increment(size[x] + OVERHEAD);
    }

    method UsePart(x: nat, request: nat)
      requires LinksOk() && CanTake(View(), x, request) && size[x] - request >= CHUNK_STRUCT_SIZE
      modifies this, size, prevSize, ctl, Links()
      ensures LinksOk() && View() == Take(old(View()), x, request)
      ensures ctl.totalAllocated == old(ctl.totalAllocated) + request + OVERHEAD
    {
      hide Binned, TagOk, Nowhere;
      ghost var h := View();
      CutPlace(h, x, request);
      var next := x + CHUNK_HEADER_SIZE + size[x];
      var rest := size[x] - request - CHUNK_HEADER_SIZE;
      var cut := x + CHUNK_HEADER_SIZE + request;
      WriteCut(x, request, cut, next, rest);
      chunks, free := chunks + {cut}, free - {x} + {cut};
      ctl.Increment(request + OVERHEAD);
    }

    method WriteCut(x: nat, request: nat, cut: nat, next: nat, rest: nat)
      requires LinksOk() && size.Length == prevSize.Length && x < cut < next < size.Length && Nowhere(lists.bins, cut)
      modifies size, prevSize, Links()
      ensures LinksOk() && View() == old(View()).(
        prevSize := old(prevSize[..])[cut := THIS_CHUNK_FREE][next := rest][x := BOTH_CHUNKS_USED],
        size := old(size[..])[cut := rest][x := request],
        bins := InsertUnsorted(old(lists.bins), LargeBinIndex(rest), cut))
    {
      prevSize[cut] := THIS_CHUNK_FREE;
      size[cut] := rest;
      prevSize[next] := rest;
      InsertChunk(cut);
      size[x] := request;
      prevSize[x] := BOTH_CHUNKS_USED;
    }

    /** _large_free */
    method Free(data: nat)
      requires Valid() && data >= CHUNK_HEADER_SIZE && data - CHUNK_HEADER_SIZE in Used(View())
      modifies this, size, prevSize, ctl, Links()
      ensures Valid() && Elsewhere() == old(Elsewhere())
      ensures first == old(first) && last == old(last)
      ensures var a := data - CHUNK_HEADER_SIZE; CanFree(old(View()), a) && Released(old(View()), View(), a)
    {
      hide Tiled, Tagged, Binned, TagOk, MergeNext, MergePrev, HalfFreed, Used, UsedWeight, Nowhere, Released, InsertUnsorted, NextReadable, PrevReadable;
      var a := data - CHUNK_HEADER_SIZE;
      ghost var h := View();
      FreedOk(h, a);
      FreedReleases(h, a);
      ctl.Increment(-(size[a] + OVERHEAD));
      MergeWithNext(a);
      var r := MergeWithPrev(a);
      InsertChunk(r);
      assert View() == Freed(h, a);
    }

    method MergeWithNext(a: nat)
      requires LinksOk() && CanFree(View(), a)
      modifies this`chunks, this`free, size, prevSize, Links()
      ensures LinksOk() && NextReadable(old(View()), a) && View() == MergeNext(old(View()), a)
    {
      hide Tagged, TagOk, HalfFreed, Used, UsedWeight, BinOk;
      MergeNextHalf(View(), a);
      NextTag(View(), a);
      var m := a + CHUNK_HEADER_SIZE + size[a];
      if prevSize[m] == BOTH_CHUNKS_USED {
        prevSize[m] := size[a];
      } else {
        MergeUp(a, m);
      }
    }

    method MergeUp(a: nat, m: nat)
      requires LinksOk() && NextReadable(View(), a) && Binned(View(), free)
      requires m == a + CHUNK_HEADER_SIZE + size[a] && m in free && prevSize[m] != BOTH_CHUNKS_USED
      modifies this`chunks, this`free, size, prevSize, Links()
      ensures LinksOk() && View() == MergeNext(old(View()), a)
    {
      hide Binned;
      ghost var h := View();
      UnlinkChunk(m);
      SetMerged(a, m + CHUNK_HEADER_SIZE + size[m], size[m] + size[a] + CHUNK_HEADER_SIZE);
      chunks, free := chunks - {m}, free - {m};
      assert View().size == MergeNext(h, a).size && View().prevSize == MergeNext(h, a).prevSize;
    }

    /** The header of a merged chunk, and the tag of the one after it. */
    method SetMerged(p: nat, next: nat, total: nat)
      requires LinksOk() && p < size.Length && next < prevSize.Length
      modifies size, prevSize
      ensures LinksOk() && View() == old(View()).(size := old(size[..])[p := total], prevSize := old(prevSize[..])[next := total])
    {
      prevSize[next] := total;
      size[p] := total;
    }

    method MergeWithPrev(a: nat) returns (r: nat)
      requires LinksOk() && HalfFreed(View(), a)
      modifies this`chunks, this`free, size, prevSize, Links()
      ensures LinksOk() && PrevReadable(old(View()), a) && (View(), r) == MergePrev(old(View()), a)
      ensures r < size.Length && Nowhere(lists.bins, r)
    {
      hide HeapOk, Tiled, Tagged, Binned, HalfFreed, Nowhere;
      ghost var h := View();
      MergePrevSteps(h, a);
      if prevSize[a] == BOTH_CHUNKS_USED {
        prevSize[a] := THIS_CHUNK_FREE;
        free := free + {a};
        r := a;
      } else {
        r := MergeDown(a);
      }
      NotBinned(View(), View().free - {r}, r);
    }

    /** What MergeWithPrev relies on. */
    lemma MergePrevSteps(h: Heap, a: nat)
      requires HalfFreed(h, a)
      ensures PrevReadable(h, a) && Binned(h, h.free)
      ensures var h', r := MergePrev(h, a).0, MergePrev(h, a).1; r < |h.size| && Binned(h', h'.free - {r})
      ensures h.prevSize[a] != BOTH_CHUNKS_USED ==> MergePrev(h, a).1 in h.free
    {
      MergePrevOk(h, a);
      MergePrevBinned(h, a);
      PrevTag(h, a);
    }

    method MergeDown(a: nat) returns (r: nat)
      requires LinksOk() && PrevReadable(View(), a) && prevSize[a] != BOTH_CHUNKS_USED && Binned(View(), free)
      requires a - CHUNK_HEADER_SIZE - prevSize[a] in free
      modifies this`chunks, size, prevSize, Links()
      ensures LinksOk() && (View(), r) == MergePrev(old(View()), a)
    {
      hide Binned, MergePrev, Unlinked, LargeBinIndex;
      ghost var h := View();
      r := a - CHUNK_HEADER_SIZE - prevSize[a];
      UnlinkChunk(r);
      SetMerged(r, a + CHUNK_HEADER_SIZE + size[a], prevSize[a] + CHUNK_HEADER_SIZE + size[a]);
      chunks := chunks - {a};
      MergedDown(h, a, r, View());
    }

    lemma MergedDown(h: Heap, a: nat, p: nat, h': Heap)
      requires PrevReadable(h, a) && h.prevSize[a] != BOTH_CHUNKS_USED && p == a - CHUNK_HEADER_SIZE - h.prevSize[a] && p < |h.size|
      requires LargeBinIndex(h.size[p]) < |h.bins|
      requires h'.size == h.size[p := h.prevSize[a] + CHUNK_HEADER_SIZE + h.size[a]]
      requires h'.prevSize == h.prevSize[NextChunk(h, a) := h.prevSize[a] + CHUNK_HEADER_SIZE + h.size[a]]
      requires h'.bins == h.bins[LargeBinIndex(h.size[p]) := Unlinked(h.bins[LargeBinIndex(h.size[p])], p)]
      requires h' == h.(size := h'.size, prevSize := h'.prevSize, bins := h'.bins, chunks := h.chunks - {a})
      ensures MergePrev(h, a) == (h', p)
    {
    }

    /** _stm_largemalloc_sweep: frees every used chunk that is not to be kept. */
    method Sweep(keep: set<nat>)
      requires Valid()
      modifies this, size, prevSize, ctl, Links()
      ensures Valid() && Elsewhere() == old(Elsewhere()) && first == old(first)
      ensures Used(View()) == old(Used(View())) * keep
      ensures forall u :: u in Used(View()) ==> size[u] == old(size[..])[u]
    {
      ghost var h := View();
      var chunk := first;
      if prevSize[first] == THIS_CHUNK_FREE {
        assert TagOk(h, first);
        chunk := chunk + CHUNK_HEADER_SIZE + size[chunk];
      }
      FirstUsed(h, chunk);
      while chunk != last
        invariant Valid() && Elsewhere() == old(Elsewhere()) && first == h.first && last == h.last
        invariant chunk in chunks && chunk !in free && Swept(h, View(), keep, chunk)
        decreases last - chunk
      {
        chunk := SweepOne(h, keep, chunk);
      }
    }

    method SweepOne(ghost h: Heap, keep: set<nat>, chunk: nat) returns (next: nat)
      requires Valid() && chunk in chunks && chunk !in free && chunk != last && HeapOk(h) && Swept(h, View(), keep, chunk)
      modifies this, size, prevSize, ctl, Links()
      ensures Valid() && Elsewhere() == old(Elsewhere()) && first == old(first) && last == old(last)
      ensures next in chunks && next !in free && chunk < next <= last && Swept(h, View(), keep, next)
    {
      ghost var h1 := View();
      assert TagOk(h1, chunk);
      next := chunk + CHUNK_HEADER_SIZE + size[chunk];
      if prevSize[next] == THIS_CHUNK_FREE {
        assert TagOk(h1, next);
        next := next + CHUNK_HEADER_SIZE + size[next];
      }
      NextUsed(h1, chunk, next);
      if chunk !in keep {
        Free(chunk + CHUNK_HEADER_SIZE);
      }
    }

    /** _stm_largemalloc_init_arena, in a memory of the given length. */
    constructor (memory: nat, start: nat, dataSize: nat, ctl: PagesCtl)
      requires start + dataSize <= memory && dataSize >= 2 * CHUNK_STRUCT_SIZE && dataSize % 32 == 0
      ensures Valid() && fresh(size) && fresh(prevSize) && fresh(Links()) && this.ctl == ctl
      ensures free == {start} && Used(View()) == {} && size[start] == dataSize - 2 * CHUNK_HEADER_SIZE
      ensures first == start && last == start + dataSize - CHUNK_HEADER_SIZE
    {
      size := new nat[memory](_ => 0);
      prevSize := new nat[memory](_ => 0);
      lists := new Lists(memory);
      this.ctl := ctl;
      first, last := start, start + dataSize - CHUNK_HEADER_SIZE;
      new;
      hide HeapOk, Used, Lists.Valid, View, Valid;
      FirstChunk(dataSize);
    }

    /** One free chunk and the end marker. */
    method FirstChunk(dataSize: nat)
      requires LinksOk() && lists.bins == seq(N_BINS, _ => Bin([], [])) && size.Length == prevSize.Length
      requires dataSize >= 2 * CHUNK_STRUCT_SIZE && dataSize % 32 == 0
      requires last == first + dataSize - CHUNK_HEADER_SIZE && first + dataSize <= size.Length
      modifies this`chunks, this`free, size, prevSize, Links()
      ensures Valid() && size[first] == dataSize - 2 * CHUNK_HEADER_SIZE && Used(View()) == {} && free == {first}
    {
      hide Tiled, Tagged, Binned, Nowhere, HeapOk, TagOk, BinOk, Lists.Valid;
      chunks, free := {first, last}, {first};
      prevSize[first] := THIS_CHUNK_FREE;
      size[first] := dataSize - 2 * CHUNK_HEADER_SIZE;
      prevSize[last] := size[first];
      size[last] := END_MARKER;
      ghost var h := View();
      InNone(first);
      InsertChunk(first);
      InitOk(h, View());
    }

    lemma InNone(x: nat)
      ensures Nowhere(seq(N_BINS, _ => Bin([], [])), x)
    {
      assert !In(Bin([], []), x);
    }

    /** _stm_largemalloc_resize_arena, when the arena does not grow. */
    method Resize(newSize: nat) returns (ok: bool)
      requires Valid() && newSize % 32 == 0 && first % 8 == 0 && first + newSize <= last + CHUNK_HEADER_SIZE
      modifies this, size, prevSize, Links()
      ensures Valid() && Elsewhere() == old(Elsewhere()) && Used(View()) == old(Used(View()))
      ensures forall u :: u in Used(View()) ==> size[u] == old(size[..])[u]
      ensures ok ==> first == old(first) && last == first + newSize - CHUNK_HEADER_SIZE
      ensures !ok ==> View() == old(View())
      ensures ok <==> newSize >= 2 * CHUNK_STRUCT_SIZE && CanShrink(old(View()), old(first) + newSize - CHUNK_HEADER_SIZE)
    {
      hide CanShrink, Tagged, TagOk, Binned, UsedWeight;
      if newSize < 2 * CHUNK_STRUCT_SIZE {
        return false;
      }
      var newLast := first + newSize - CHUNK_HEADER_SIZE;
      if newLast < last {
        Shrinkable(View(), newLast);
        if prevSize[last] == BOTH_CHUNKS_USED {
          return false;
        }
        var p := last - CHUNK_HEADER_SIZE - prevSize[last];
        if newLast < p + CHUNK_STRUCT_SIZE {
          return false;
        }
        EndAligned(first, newSize);
        ShrinkTo(p, newLast);
      } else {
        AlreadyThere(View());
      }
      return true;
    }

    lemma EndAligned(start: nat, newSize: nat)
      requires start % 8 == 0 && newSize % 32 == 0
      ensures (start + newSize - CHUNK_HEADER_SIZE) % 8 == 0
    {
      var j, k := start / 8, newSize / 32;
      assert start + newSize - CHUNK_HEADER_SIZE == 8 * (j + 4 * k - 2);
    }

    method ShrinkTo(p: nat, newLast: nat)
      requires Valid() && first % 8 == 0 && newLast % 8 == 0 && p in free && NextChunk(View(), p) == last
      requires p + CHUNK_STRUCT_SIZE <= newLast < last
      modifies this, size, prevSize, Links()
      ensures Valid() && Elsewhere() == old(Elsewhere()) && Used(View()) == old(Used(View()))
      ensures forall u :: u in Used(View()) ==> size[u] == old(size[..])[u]
      ensures first == old(first) && last == newLast
    {
      hide UsedWeight, TagOk, BinOk, Lists.Valid;
      UnlinkFree(p);
      MoveEnd(p, newLast);
      InsertBack(p);
    }

    method UnlinkFree(p: nat)
      requires Valid() && p in free
      modifies Links()
      ensures LinksOk() && View() == old(View()).(bins := View().bins) && Binned(View(), free - {p})
      ensures Tiled(View()) && Tagged(View()) && UsedWeight(View()) == old(UsedWeight(View())) && Used(View()) == old(Used(View()))
    {
      ghost var h := View();
      UnlinkChunk(p);
      UnlinkKeeps(h, View(), h.free, p);
      SameTiles(h, View());
      SameTags(h, View());
    }

    method InsertBack(p: nat)
      requires LinksOk() && Tiled(View()) && Tagged(View()) && p in free && Binned(View(), free - {p})
      modifies Links()
      ensures Valid() && View() == old(View()).(bins := View().bins) && UsedWeight(View()) == old(UsedWeight(View()))
      ensures Used(View()) == old(Used(View()))
    {
      ghost var h := View();
      NotBinned(h, free - {p}, p);
      InsertChunk(p);
      SameTiles(h, View());
      SameTags(h, View());
      InsertKeeps(h, View(), free - {p}, p);
      assert free - {p} + {p} == free;
    }

    method MoveEnd(p: nat, newLast: nat)
      requires LinksOk() && ShrinksTo(View(), p, newLast)
      modifies this`last, this`chunks, size, prevSize
      ensures LinksOk() && View() == Shrunk(old(View()), p, newLast)
      ensures Tiled(View()) && Tagged(View()) && Binned(View(), free - {p})
      ensures Used(View()) == old(Used(View())) && UsedWeight(View()) == old(UsedWeight(View()))
      ensures forall u :: u in Used(View()) ==> size[u] == old(size[u])
    {
      ShrunkOk(View(), p, newLast);
      size[p] := newLast - p - CHUNK_HEADER_SIZE;
      prevSize[newLast] := size[p];
      size[newLast] := END_MARKER;
      chunks := chunks - {last} + {newLast};
      last := newLast;
    }
  }
}
