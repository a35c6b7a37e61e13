/** The bins as the allocator works on them: every operation of largemalloc.c on
    the lists relinks chunks in place, and does to the bin what module Bins says. */
module BinLists {
  import opened Bins
  import opened BinLinks

  /** largebins and the link fields of all chunks.  The head of bin i is numbered
      memory + i; the bins themselves are bookkeeping. */
  class Lists {
    const memory: nat
    const next: array<nat>
    const prev: array<nat>
    const up: array<Link>
    const down: array<Link>
    ghost var bins: seq<Bin>

    ghost function Value(): Links
      reads next, prev, up, down
    {
      Links(next[..], prev[..], up[..], down[..])
    }

    ghost predicate Valid()
      reads this, next, prev, up, down
    {
      |bins| == N_BINS && next != prev && up != down && Value().Sized(memory + N_BINS) && AllLinked(Value(), bins, memory) && Apart(bins, memory)
    }

    /** The loop of _stm_largemalloc_init_arena: all bins are empty. */
    constructor (memory: nat)
      ensures Valid() && this.memory == memory && bins == seq(N_BINS, _ => Bin([], []))
      ensures fresh(next) && fresh(prev) && fresh(up) && fresh(down)
    {
      this.memory := memory;
      next := new nat[memory + N_BINS](_ => 0);
      prev := new nat[memory + N_BINS](_ => 0);
      up := new Link[memory + N_BINS](_ => Null);
      down := new Link[memory + N_BINS](_ => Null);
      bins := seq(N_BINS, _ => Bin([], []));
      new;
      var i := 0;
      while i < N_BINS
        invariant i <= N_BINS && bins == seq(N_BINS, _ => Bin([], []))
        invariant forall h :: memory <= h < memory + i ==> next[h] == prev[h] == h
      {
        prev[memory + i] := memory + i;
        next[memory + i] := memory + i;
        i := i + 1;
      }
      forall j | 0 <= j < N_BINS ensures Linked(Value(), memory + j, bins[j]) { EmptyLinked(Value(), memory + j); }
      AllEmpty(memory);
    }

    /** insert_unsorted */
    method Insert(i: nat, x: nat)
      requires Valid() && i < N_BINS && x < memory && Nowhere(bins, x)
      modifies this, next, prev, up, down
      ensures Valid() && bins == InsertUnsorted(old(bins), i, x)
    {
      ghost var l, b := Value(), bins[i];
      ghost var b' := b.(unsorted := b.unsorted + [x]);
      Ready(l, bins, memory, i);
      AppendedLinked(l, memory + i, b, x);
      NowhereElse(bins, memory, i, x);
      assert Members(b') == Members(b) + multiset{x};
      ApartMore(bins, memory, i, b', x);
      OthersLinked(l, Appended(l, memory + i, x), bins, memory, i, b', x);
      LinkLast(memory + i, x);
      bins := bins[i := b'];
    }

    method LinkLast(head: nat, x: nat)
      requires next != prev && up != down && Value().Sized(next.Length) && head < next.Length && prev[head] < next.Length && x < next.Length && x != head && prev[head] != x
      modifies next, prev, up, down
      ensures Value() == Appended(old(Value()), head, x)
    {
      next[x] := head;
      prev[x] := prev[head];
      next[prev[x]] := x;
      up[x] := Unsorted;
      down[x] := Null;
      prev[head] := x;
    }

    /** unlink_chunk */
    method Unlink(ghost i: nat, x: nat)
      requires Valid() && i < N_BINS && In(bins[i], x)
      modifies this, next, prev, up, down
      ensures Valid() && bins == old(bins)[i := Unlinked(old(bins)[i], x)] && Nowhere(bins, x)
    {
      hide AllLinked, Apart, Nowhere, In, Linked, ChangesOnly;
      ghost var l := Value();
      UnlinkSteps(i, x);
      UnlinkedAll(l, Value(), bins, memory, i, x);
      bins := bins[i := Unlinked(bins[i], x)];
    }

    /** Which case it is shows in the links of x. */
    lemma Cases(l: Links, head: nat, b: Bin, x: nat)
      requires BinReady(l, head, b) && NoEmptyColumn(b) && In(b, x)
      ensures x < |l.next| && (l.down[x] == Null || l.down[x].At?)
      ensures l.down[x].At? ==> l.down[x].chunk < |l.up| && (l.up[x].At? ==> l.up[x].chunk < |l.up|)
      ensures l.down[x].At? ==>
        Linked(Unstacked(l, x), head, Unlinked(b, x)) && ChangesOnly(l, Unstacked(l, x), head, b, x)
      ensures l.down[x] == Null ==> l.prev[x] < |l.next| && l.next[x] < |l.next|
      ensures l.down[x] == Null && !l.up[x].At? ==>
        Linked(Detached(l, x), head, Unlinked(b, x)) && ChangesOnly(l, Detached(l, x), head, b, x)
      ensures l.down[x] == Null && l.up[x].At? ==> l.up[x].chunk < |l.next|
      ensures l.down[x] == Null && l.up[x].At? ==>
        Linked(Raised(l, x), head, Unlinked(b, x)) && ChangesOnly(l, Raised(l, x), head, b, x)
    {
      var inColumn, j, k := Place(b, x);
      if inColumn {
        UnlinkedColumn(b, j, k);
        if k > 0 { UnstackedLinked(l, head, b, j, k); }
        else if |b.sorted[j]| == 1 { DetachedColumn(l, head, b, j); }
        else { RaisedLinked(l, head, b, j); }
      } else {
        UnlinkedUnsorted(b, k);
        DetachedUnsorted(l, head, b, k);
      }
    }

    /** The three cases of unlink_chunk. */
    method UnlinkSteps(ghost i: nat, x: nat)
      requires Valid() && i < N_BINS && In(bins[i], x)
      modifies next, prev, up, down
      ensures Linked(Value(), memory + i, Unlinked(bins[i], x)) && ChangesOnly(old(Value()), Value(), memory + i, bins[i], x)
    {
      hide AllLinked, Apart, Linked, ChangesOnly, Simple, In, NoEmptyColumn, Unlinked;
      ghost var l, head, b := Value(), memory + i, bins[i];
      Ready(l, bins, memory, i);
      Cases(l, head, b, x);
      if down[x] != Null {
        var above, below := up[x], down[x].chunk;
        up[below] := above;
        if above.At? { down[above.chunk] := At(below); }
        assert Value() == Unstacked(l, x);
      } else {
        var before, after := prev[x], next[x];
        if up[x] == Null || up[x] == Unsorted {
          prev[after] := before;
          next[before] := after;
          assert Value() == Detached(l, x);
        } else {
          var above := up[x].chunk;
          prev[after] := above;
          next[before] := above;
          next[above] := after;
          prev[above] := before;
          down[above] := Null;
          assert Value() == Raised(l, x);
        }
      }
    }

    // ----- sorting

    /** sort_bin: afterwards there is no unsorted tail. */
    method SortBin(i: nat, size: array<nat>)
      requires Valid() && size != next && size != prev && i < N_BINS && BinSorted(bins[i], size[..])
      modifies this, next, prev, up, down
      ensures Valid() && bins == old(bins)[i := bins[i]]
      ensures bins[i].unsorted == [] && BinSorted(bins[i], size[..]) && Members(bins[i]) == old(Members(bins[i]))
    {
      Ready(Value(), bins, memory, i);
      TailShows(Value(), memory + i, bins[i]);
      var last := prev[memory + i];
      if last != memory + i && up[last] == Unsorted {
        ReallySortBin(i, size);
      }
    }

    method ReallySortBin(i: nat, size: array<nat>)
      requires Valid() && size != next && size != prev && i < N_BINS && BinSorted(bins[i], size[..]) && bins[i].unsorted != []
      modifies this, next, prev, up, down
      ensures Valid() && bins == old(bins)[i := bins[i]]
      ensures bins[i].unsorted == [] && BinSorted(bins[i], size[..]) && Members(bins[i]) == old(Members(bins[i]))
    {
      ghost var was := bins;
      var chunks := CutTail(i);
      forall x | x in chunks ensures x < size.Length { assert x in multiset(chunks) && x in was[i].unsorted; }
      assert chunks[0] in chunks;
      if |chunks| > 1 {
        chunks := SortChunks(chunks, size);
      }
      MergeChunks(i, chunks, size, was);
    }

    /** Cuts the unsorted tail off, and collects it from its end. */
    method CutTail(i: nat) returns (chunks: seq<nat>)
      requires Valid() && i < N_BINS && bins[i].unsorted != []
      modifies this, next, prev
      ensures Valid() && bins == old(bins)[i := old(bins[i]).(unsorted := [])]
      ensures |chunks| > 0 && multiset(chunks) == old(multiset(bins[i].unsorted))
    {
      hide AllLinked, Apart, BinReady, Linked, Simple, In, NoEmptyColumn, Loop, RingOf, ChangesOnly;
      ghost var l, head, b := Value(), memory + i, bins[i];
      Ready(l, bins, memory, i);
      var count, scan := CountTail(i);
      var unsorted := prev[memory + i];
      CutAll(l, bins, memory, i);
      prev[memory + i] := scan;
      next[scan] := memory + i;
      assert Value() == CutOff(l, head, scan);
      chunks := Collect(l, head, b, unsorted, count);
      bins := bins[i := b.(unsorted := [])];
    }

    /** How many chunks are unsorted, and what comes before them. */
    method CountTail(i: nat) returns (count: nat, scan: nat)
      requires Valid() && i < N_BINS && bins[i].unsorted != []
      ensures count == |bins[i].unsorted| && scan == Loop(memory + i, RingOf(bins[i]))[|bins[i].sorted|]
    {
      hide AllLinked, Apart, BinReady, Linked, Simple, In, NoEmptyColumn, Loop, RingOf;
      ghost var l, b := Value(), bins[i];
      var head := memory + i;
      ghost var all, n, m := Loop(head, RingOf(b)), |b.sorted|, |b.unsorted|;
      Ready(l, bins, memory, i);
      Back(l, head, b, n + m);
      Back(l, head, b, n + m - 1);
      scan := prev[prev[head]];
      count := 1;
      while scan != head && up[scan] == Unsorted
        invariant 1 <= count <= m && scan == all[n + m - count] && scan < prev.Length
        decreases m - count
      {
        InTail(l, head, b, m - count);
        Back(l, head, b, n + m - count - 1);
        scan := prev[scan];
        count := count + 1;
      }
      InTail(l, head, b, m - count);
    }

    /** The k-th chunk or head of a bin is unsorted exactly if it is in the tail. */
    lemma InTail(l: Links, head: nat, b: Bin, k: int)
      requires BinReady(l, head, b) && NoEmptyColumn(b) && 0 <= k <= |b.unsorted|
      ensures var at := Loop(head, RingOf(b))[|b.sorted| + k];
        && at < |l.up| && (at != head && l.up[at] == Unsorted <==> k > 0)
        && (k > 0 ==> at == b.unsorted[k - 1])
    {
      var all, n := Loop(head, RingOf(b)), |b.sorted|;
      RingNeighbours(l.next, l.prev, head, RingOf(b), n + k);
      if k > 0 {
        assert all[n + k] == b.unsorted[k - 1] && IsUnsorted(l, b.unsorted[k - 1]) && In(b, b.unsorted[k - 1]);
      } else if n > 0 {
        assert all[n] == b.sorted[n - 1][0] && Stacked(l.up, l.down, b.sorted[n - 1], 0);
      }
    }

    lemma TailShows(l: Links, head: nat, b: Bin)
      requires BinReady(l, head, b) && NoEmptyColumn(b)
      ensures head < |l.prev| && l.prev[head] < |l.up|
      ensures l.prev[head] != head && l.up[l.prev[head]] == Unsorted <==> b.unsorted != []
    {
      InTail(l, head, b, |b.unsorted|);
      RingNeighbours(l.next, l.prev, head, RingOf(b), |RingOf(b)|);
    }

    /** Going backwards through the tail that was cut off. */
    lemma TailBack(l: Links, head: nat, b: Bin, k: nat)
      requires BinReady(l, head, b) && NoEmptyColumn(b) && 0 < k <= |b.unsorted|
      ensures var all, n := Loop(head, RingOf(b)), |b.sorted|;
        && l.Sized(|l.next|) && head < |l.next| && all[n] < |l.next| && all[n + k] < |l.next|
        && |CutOff(l, head, all[n]).prev| == |l.next| && all[n + k] == b.unsorted[k - 1] && CutOff(l, head, all[n]).prev[all[n + k]] == all[n + k - 1]
    {
      var all, n := Loop(head, RingOf(b)), |b.sorted|;
      Back(l, head, b, n);
      Back(l, head, b, n + k - 1);
      InTail(l, head, b, k);
    }

    method Collect(ghost l: Links, ghost head: nat, ghost b: Bin, last: nat, count: nat) returns (chunks: seq<nat>)
      requires BinReady(l, head, b) && NoEmptyColumn(b) && head < |l.next| && Loop(head, RingOf(b))[|b.sorted|] < |l.next|
      requires Value() == CutOff(l, head, Loop(head, RingOf(b))[|b.sorted|])
      requires last == l.prev[head] && count == |b.unsorted| > 0
      ensures |chunks| > 0 && multiset(chunks) == multiset(b.unsorted)
    {
      hide AllLinked, Apart, BinReady, Linked, Simple, In, NoEmptyColumn, Loop, RingOf, CutOff;
      ghost var all, n := Loop(head, RingOf(b)), |b.sorted|;
      Back(l, head, b, n + count);
      TailBack(l, head, b, count);
      assert prev.Length == |Value().prev| && last == all[n + count];
      chunks := [];
      var unsorted, k := last, 0;
      while k < count
        invariant 0 <= k <= count && |chunks| == k && unsorted == all[n + count - k]
        invariant multiset(chunks) == multiset(b.unsorted[count - k..])
      {
        TailBack(l, head, b, count - k);
        assert Value().prev[unsorted] == prev[unsorted] && unsorted == b.unsorted[count - k - 1];
        assert b.unsorted[count - k - 1..] == [unsorted] + b.unsorted[count - k..];
        chunks := chunks + [unsorted];
        unsorted := prev[unsorted];
        k := k + 1;
      }
      assert b.unsorted[0..] == b.unsorted;
    }

    /** A chunk that waits to be put into bin i is in no bin. */
    lemma PendingNowhere(was: seq<Bin>, i: nat, b: Bin, pending: seq<nat>, x: nat)
      requires Apart(was, memory) && i < |was| && Members(b) + multiset(pending) == Members(was[i]) && x in pending
      ensures Nowhere(was[i := b], x) && x < memory
    {
      InMembers(b, x);
      InMembers(was[i], x);
      assert Members(was[i])[x] == Members(b)[x] + multiset(pending)[x] && multiset(pending)[x] >= 1;
      assert In(was[i], x) && !In(b, x);
    }

    lemma OneLess(chunks: seq<nat>, count: nat)
      requires 0 < count <= |chunks|
      ensures chunks[count - 1] in chunks[..count]
      ensures multiset(chunks[..count]) == multiset(chunks[..count - 1]) + multiset{chunks[count - 1]}
    {
      assert chunks[..count] == chunks[..count - 1] + [chunks[count - 1]];
    }

    /** The loop of really_sort_bin: the chunks come in from the biggest to the
        smallest, and `at` only moves forward. */
    method MergeChunks(i: nat, chunks: seq<nat>, size: array<nat>, ghost was: seq<Bin>)
      requires Valid() && size != next && size != prev && i < N_BINS && Apart(was, memory) && |was| == N_BINS && bins == was[i := bins[i]]
      requires bins[i].unsorted == [] && ColumnsOk(bins[i].sorted, size[..]) && Ascending(chunks, size[..])
      requires Members(bins[i]) + multiset(chunks) == Members(was[i])
      modifies this, next, prev, up, down
      ensures Valid() && bins == was[i := bins[i]]
      ensures bins[i].unsorted == [] && BinSorted(bins[i], size[..]) && Members(bins[i]) == Members(was[i])
    {
      hide AllLinked, Apart, Nowhere, ColumnsOk, Members, BinReady, Linked, Simple, In, Loop, NoEmptyColumn;
      Ready(Value(), bins, memory, i);
      FirstAt(Value(), memory + i, bins[i]);
      var count, at := |chunks|, next[memory + i];
      ghost var pos := 0;
      assert chunks[..count] == chunks;
      while count > 0
        invariant Valid() && 0 <= count <= |chunks| && bins == was[i := bins[i]] && bins[i].unsorted == []
        invariant ColumnsOk(bins[i].sorted, size[..]) && Members(bins[i]) + multiset(chunks[..count]) == Members(was[i])
        invariant IsAt(i, pos, at) && (count > 0 ==> AllBigger(i, pos, chunks[count - 1], size[..]))
        decreases count, |bins[i].sorted| - pos
      {
        var used;
        OneLess(chunks, count);
        PendingNowhere(was, i, bins[i], chunks[..count], chunks[count - 1]);
        at, pos, used := MergeRound(i, pos, at, chunks[count - 1], size);
        if used {
          count := count - 1;
        }
      }
      assert Members(bins[i]) == Members(was[i]);
    }

    /** `at` is the bottom of column pos, or the head of the bin at the end. */
    ghost predicate IsAt(i: nat, pos: nat, at: nat)
      requires i < |bins|
      reads this
    {
      pos <= |bins[i].sorted| && at == Loop(memory + i, RingOf(bins[i]))[pos + 1]
    }

    /** The column before position pos holds bigger chunks than x. */
    ghost predicate AllBigger(i: nat, pos: nat, x: nat, size: seq<nat>)
      requires i < |bins| && ColumnsOk(bins[i].sorted, size) && x < |size|
      reads this
    {
      pos > 0 && pos <= |bins[i].sorted| ==> size[bins[i].sorted[pos - 1][0]] > size[x]
    }

    lemma FirstAt(l: Links, head: nat, b: Bin)
      requires BinReady(l, head, b)
      ensures head < |l.next| && l.next[head] == Loop(head, RingOf(b))[1]
    {
      RingNeighbours(l.next, l.prev, head, RingOf(b), 0);
    }

    lemma AtColumn(l: Links, head: nat, b: Bin, pos: nat, at: nat)
      requires BinReady(l, head, b) && NoEmptyColumn(b) && b.unsorted == [] && pos <= |b.sorted| && at == Loop(head, RingOf(b))[pos + 1]
      ensures at < |l.next| && (at == head <==> pos == |b.sorted|)
      ensures pos < |b.sorted| ==> at == b.sorted[pos][0] && l.next[at] == Loop(head, RingOf(b))[pos + 2]
    {
      RingNeighbours(l.next, l.prev, head, RingOf(b), pos);
      if pos < |b.sorted| {
        assert at == b.sorted[pos][0] && at in b.sorted[pos] && In(b, at);
        RingNeighbours(l.next, l.prev, head, RingOf(b), pos + 1);
      }
    }

    lemma BottomSize(columns: seq<seq<nat>>, pos: nat, size: seq<nat>)
      requires ColumnsOk(columns, size) && pos < |columns|
      ensures |columns[pos]| > 0 && columns[pos][0] < |size|
    {
    }

    /** One round of the loop: places chunk x, or moves on to the next column. */
    method MergeRound(i: nat, ghost pos: nat, at: nat, x: nat, size: array<nat>) returns (at': nat, ghost pos': nat, used: bool)
      requires Valid() && size != next && size != prev && i < N_BINS && bins[i].unsorted == [] && ColumnsOk(bins[i].sorted, size[..])
      requires x < memory && x < size.Length && Nowhere(bins, x) && IsAt(i, pos, at) && AllBigger(i, pos, x, size[..])
      modifies this, next, prev, up, down
      ensures Valid() && bins == old(bins)[i := bins[i]] && bins[i].unsorted == [] && ColumnsOk(bins[i].sorted, size[..])
      ensures IsAt(i, pos', at') && AllBigger(i, pos', x, size[..])
      ensures if used then Members(bins[i]) == old(Members(bins[i])) + multiset{x} else bins == old(bins) && pos' == pos + 1
    {
      hide AllLinked, Apart, Nowhere, ColumnsOk, Members, BinReady, Linked, Simple, In, Loop, NoEmptyColumn;
      Ready(Value(), bins, memory, i);
      AtColumn(Value(), memory + i, bins[i], pos, at);
      if pos < |bins[i].sorted| { BottomSize(bins[i].sorted, pos, size[..]); }
      if at == memory + i || size[at] < size[x] {
        PutInFront(i, pos, at, x, size[..]);
        at', pos', used := x, pos, true;
      } else if size[at] == size[x] {
        PutOnTop(i, pos, at, x, size[..]);
        at', pos', used := at, pos, true;
      } else {
        at', pos', used := next[at], pos + 1, false;
      }
    }

    method PutInFront(i: nat, ghost pos: nat, at: nat, x: nat, ghost size: seq<nat>)
      requires Valid() && i < N_BINS && bins[i].unsorted == [] && ColumnsOk(bins[i].sorted, size)
      requires x < memory && x < |size| && Nowhere(bins, x) && IsAt(i, pos, at) && AllBigger(i, pos, x, size)
      requires pos < |bins[i].sorted| ==> size[bins[i].sorted[pos][0]] < size[x]
      modifies this, next, prev, up, down
      ensures Valid() && bins == old(bins)[i := bins[i]] && bins[i] == Bin(InsertedColumn(old(bins[i].sorted), pos, x), [])
      ensures ColumnsOk(bins[i].sorted, size) && IsAt(i, pos, x) && AllBigger(i, pos, x, size)
      ensures Members(bins[i]) == old(Members(bins[i])) + multiset{x}
    {
      hide AllLinked, Apart, Nowhere, ColumnsOk, InsertedColumn, Fronted, Members;
      ghost var l, b, b' := Value(), bins[i], Bin(InsertedColumn(bins[i].sorted, pos, x), []);
      FrontedAll(l, bins, memory, i, pos, at, x);
      InsertedOk(b.sorted, pos, x, size);
      InsertedFlat(b.sorted, pos, x);
      OnlySorted(b, b', x);
      InsertedAt(b.sorted, pos, x, memory + i, size);
      LinkBefore(at, x);
      bins := bins[i := b'];
    }

    lemma OnlySorted(b: Bin, b': Bin, x: nat)
      requires b.unsorted == b'.unsorted == []
      ensures multiset(Flat(b'.sorted)) == multiset(Flat(b.sorted)) + multiset{x} ==> Members(b') == Members(b) + multiset{x}
    {
    }

    lemma InsertedAt(columns: seq<seq<nat>>, pos: nat, x: nat, head: nat, size: seq<nat>)
      requires pos <= |columns|
      ensures var r := InsertedColumn(columns, pos, x);
        |r| == |columns| + 1 && Loop(head, RingOf(Bin(r, [])))[pos + 1] == x && (pos > 0 ==> r[pos - 1] == columns[pos - 1])
    {
    }

    method LinkBefore(at: nat, x: nat)
      requires next != prev && up != down && Value().Sized(next.Length) && at < next.Length && prev[at] < next.Length && x < next.Length
      requires x != at && x != prev[at]
      modifies next, prev, up, down
      ensures Value() == Fronted(old(Value()), at, x)
    {
      next[prev[at]] := x;
      prev[x] := prev[at];
      prev[at] := x;
      next[x] := at;
      up[x] := Null;
      down[x] := Null;
    }

    method PutOnTop(i: nat, ghost pos: nat, at: nat, x: nat, ghost size: seq<nat>)
      requires Valid() && i < N_BINS && bins[i].unsorted == [] && ColumnsOk(bins[i].sorted, size)
      requires x < memory && x < |size| && Nowhere(bins, x) && IsAt(i, pos, at) && AllBigger(i, pos, x, size)
      requires pos < |bins[i].sorted| && size[bins[i].sorted[pos][0]] == size[x]
      modifies this, next, prev, up, down
      ensures Valid() && bins == old(bins)[i := bins[i]] && |old(bins[i]).sorted[pos]| > 0 && bins[i] == Bin(PushedColumn(old(bins[i].sorted), pos, x), [])
      ensures ColumnsOk(bins[i].sorted, size) && IsAt(i, pos, at) && AllBigger(i, pos, x, size)
      ensures Members(bins[i]) == old(Members(bins[i])) + multiset{x}
    {
      hide AllLinked, Apart, Nowhere, PushedColumn, PutAbove, Members;
      ghost var l, b := Value(), bins[i];
      PutAboveAll(l, bins, memory, i, pos, at, x);
      ghost var b' := Bin(PushedColumn(b.sorted, pos, x), []);
      PushedOk(b.sorted, pos, x, size);
      PushedFlat(b.sorted, pos, x);
      OnlySorted(b, b', x);
      PushedAt(b.sorted, pos, x, memory + i);
      LinkAbove(at, x);
      bins := bins[i := b'];
    }

    lemma PushedAt(columns: seq<seq<nat>>, pos: nat, x: nat, head: nat)
      requires pos < |columns| && |columns[pos]| > 0
      ensures var r := PushedColumn(columns, pos, x);
        |r| == |columns| && RingOf(Bin(r, [])) == RingOf(Bin(columns, [])) && (pos > 0 ==> r[pos - 1] == columns[pos - 1])
    {
      var r := PushedColumn(columns, pos, x);
      forall j | 0 <= j < |r| ensures Bottom(r[j]) == Bottom(columns[j]) {}
    }

    method LinkAbove(at: nat, x: nat)
      requires next != prev && up != down && Value().Sized(next.Length) && at < next.Length && x < next.Length && x != at
      requires up[at].At? ==> up[at].chunk < next.Length
      modifies up, down
      ensures Value() == PutAbove(old(Value()), at, x)
    {
      var above := up[at];
      up[x] := above;
      down[x] := At(at);
      if above.At? {
        down[above.chunk] := At(x);
      }
      up[at] := At(x);
    }

    // ----- taking a chunk

    /** The scan of a sorted bin from its end, for the first bottom that fits. */
    method Scan(i: nat, request: nat, size: array<nat>) returns (found: bool, scan: nat, ghost k: nat)
      requires Valid() && size != next && size != prev && i < N_BINS && bins[i].unsorted == [] && ColumnsOk(bins[i].sorted, size[..])
      ensures found ==> scan < size.Length && size[scan] >= request && exists c :: c in bins[i].sorted && c[0] == scan
      ensures !found ==> forall j :: 0 <= j < |bins[i].sorted| ==> size[bins[i].sorted[j][0]] < request
      ensures found ==> k < |bins[i].sorted| && scan == bins[i].sorted[k][0]
      ensures !found ==> k == 0
      ensures forall j :: (if found then k < j else 0 <= j) && j < |bins[i].sorted| ==> size[bins[i].sorted[j][0]] < request
    {
      hide AllLinked, Apart, Nowhere, Members, BinReady, Linked, Simple, In, NoEmptyColumn, Joined, Loop, RingOf;
      ghost var l, head, b := Value(), memory + i, bins[i];
      Ready(l, bins, memory, i);
      k := |b.sorted|;
      FromEnd(l, head, b, k);
      scan := prev[memory + i];
      while scan != memory + i
        invariant k <= |b.sorted| && scan == Loop(head, RingOf(b))[k]
        invariant forall j :: k <= j < |b.sorted| ==> size[b.sorted[j][0]] < request
        decreases k
      {
        FromEnd(l, head, b, k);
        FromEnd(l, head, b, k - 1);
        k := k - 1;
        if size[scan] >= request {
          return true, scan, k;
        }
        scan := prev[scan];
      }
      FromEnd(l, head, b, k);
      return false, 0, 0;
    }

    /** Going backwards through a sorted bin. */
    lemma FromEnd(l: Links, head: nat, b: Bin, k: nat)
      requires BinReady(l, head, b) && NoEmptyColumn(b) && b.unsorted == [] && k <= |b.sorted|
      ensures var at := Loop(head, RingOf(b))[k];
        && (at == head <==> k == 0) && (k > 0 ==> at == b.sorted[k - 1][0])
        && Loop(head, RingOf(b))[k + 1] < |l.prev| && l.prev[Loop(head, RingOf(b))[k + 1]] == at
        && (k == |b.sorted| ==> Loop(head, RingOf(b))[k + 1] == head)
    {
      RingNeighbours(l.next, l.prev, head, RingOf(b), k);
      if k > 0 { AtColumn(l, head, b, k - 1, Loop(head, RingOf(b))[k]); }
    }

    method IsEmpty(i: nat) returns (empty: bool)
      requires Valid() && i < N_BINS
      ensures empty <==> bins[i] == Bin([], [])
    {
      ghost var l, head, b := Value(), memory + i, bins[i];
      Ready(l, bins, memory, i);
      LastNeighbours(l, head, b);
      SimpleRing(b, head);
      empty := prev[memory + i] == memory + i;
      assert RingOf(b) != [] ==> prev[memory + i] == RingOf(b)[|RingOf(b)| - 1] && RingOf(b)[|RingOf(b)| - 1] in RingOf(b);
    }

    /** The chunk at the end of a sorted bin. */
    method Last(i: nat) returns (scan: nat)
      requires Valid() && i < N_BINS && bins[i].unsorted == [] && bins[i].sorted != []
      ensures |bins[i].sorted[|bins[i].sorted| - 1]| > 0 && scan == bins[i].sorted[|bins[i].sorted| - 1][0]
    {
      Ready(Value(), bins, memory, i);
      LastNeighbours(Value(), memory + i, bins[i]);
      scan := prev[memory + i];
    }

    /** The end of the search in _stm_large_malloc: takes the chunk above the one
        that was found, if there is one, to leave the `d` list as it is. */
    method Grab(ghost i: nat, ghost k: nat, scan: nat) returns (x: nat)
      requires Valid() && i < N_BINS && k < |bins[i].sorted| && |bins[i].sorted[k]| > 0 && scan == bins[i].sorted[k][0]
      modifies this, next, prev, up, down
      ensures x in old(bins[i].sorted[k]) && Nowhere(bins, x)
      ensures Valid() && bins == old(bins)[i := Unlinked(old(bins[i]), x)]
    {
      hide AllLinked, Apart, Nowhere, In, Unstacked;
      GrabbedAll(Value(), bins, memory, i, k);
      if up[scan] != Null {
        x := up[scan].chunk;
        GrabAbove(scan, x);
        bins := bins[i := Unlinked(bins[i], x)];
      } else {
        x := scan;
        Unlink(i, x);
      }
    }

    method GrabAbove(scan: nat, above: nat)
      requires next != prev && up != down && Value().Sized(next.Length) && scan < up.Length && above < up.Length
      requires down[above] == At(scan) && (up[above].At? ==> up[above].chunk < down.Length)
      modifies up, down
      ensures Value() == Unstacked(old(Value()), above)
    {
      var twoAbove := up[above];
      up[scan] := twoAbove;
      if twoAbove.At? {
        down[twoAbove.chunk] := At(scan);
      }
    }
  }
}
