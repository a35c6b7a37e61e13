/** The allocator and the segments with their one memory counter: total_allocated
    is at any time what the used chunks and the private pages take. */
module Accounts {
  import opened Pages
  import opened LargeHeap
  import opened LargeMalloc
  import opened BinLinks
  import opened Views
  import S = Segments

  /** What may happen, in any order.  Free names one of the blocks handed out. */
  datatype Call =
    | Malloc(size: nat)
    | Free(k: nat)
    | Sweep(keep: set<nat>)
    | Shrink(newSize: nat)
    | Write(segment: nat, object: nat)
    | Abort(segment: nat)
    | Reshare

  /** The accounts are right. */
  ghost predicate Balanced(total: int, h: Heap, bits: seq<set<nat>>)
    requires Tiled(h)
  {
    total == UsedWeight(h) + PAGE_SIZE * S.PrivateTotal(bits)
  }

  class System {
    const ctl: PagesCtl
    const arena: Arena
    const segments: S.SegmentMemory

    function ArenaRepr(): set<object> {
      {arena, arena.size, arena.prevSize, arena.lists, arena.lists.next, arena.lists.prev, arena.lists.up, arena.lists.down}
    }

    function SegmentsRepr(): set<object> {
      {segments, segments.bySegment, segments.pages, segments.locks, segments.modified, segments.markers, segments.version}
    }

    ghost predicate ArenaOk()
      reads ArenaRepr()
    {
      arena.ctl == ctl && arena.Valid() && arena.first % 8 == 0
    }

    ghost predicate SegmentsOk()
      reads SegmentsRepr()
    {
      && segments.ctl == ctl && segments.Shape() && segments.BitsValid() && segments.ModifiedArePrivate()
      && Coherent(segments.Value())
    }

    /** The two share nothing but the counter. */
    predicate Separate() {
      {arena.size, arena.prevSize, arena.lists.next, arena.lists.prev} !! {segments.locks, segments.version}
    }

    ghost predicate Valid()
      reads ctl, ArenaRepr(), SegmentsRepr()
    {
      Separate() && ArenaOk() && SegmentsOk() && Balanced(ctl.totalAllocated, arena.View(), segments.bySegment[..])
    }

    constructor (memory: nat, start: nat, dataSize: nat, layout: S.Layout, count: nat, bound: nat)
      requires start + dataSize <= memory && dataSize >= 2 * CHUNK_STRUCT_SIZE && dataSize % 32 == 0 && start % 8 == 0
      requires layout.Valid() && count > 0
      ensures Valid() && Handed([], Used(arena.View())) && fresh(ctl) && fresh(ArenaRepr()) && fresh(SegmentsRepr()) && ctl.totalAllocated == 0
    {
      hide Tiled, Tagged, Binned, Used, UsedWeight, Coherent, Arena.Valid, Arena.LinksOk, S.SegmentMemory.Shape, S.SegmentMemory.ModifiedArePrivate, S.SegmentMemory.BitsValid, S.SegmentMemory.Value, Balanced, System.Valid, Handed;
      var c := new PagesCtl(bound);
      ctl := c;
      arena := new Arena(memory, start, dataSize, c);
      segments := new S.SegmentMemory(layout, count, c);
      new;
      Start();
    }

    lemma Start()
      requires Separate() && ArenaOk() && SegmentsOk() && ctl.totalAllocated == 0
      requires Used(arena.View()) == {} && S.PrivateTotal(segments.bySegment[..]) == 0
      ensures Valid() && Handed([], Used(arena.View()))
    {
    }

    method DoMalloc(size: nat) returns (data: nat)
      requires Valid() && size % 8 == 0
      modifies ctl, ArenaRepr()
      ensures Valid()
      ensures data == 0 ==> Used(arena.View()) == old(Used(arena.View()))
      ensures data != 0 ==> data >= CHUNK_HEADER_SIZE && data - CHUNK_HEADER_SIZE !in old(Used(arena.View()))
      ensures data != 0 ==> Used(arena.View()) == old(Used(arena.View())) + {data - CHUNK_HEADER_SIZE}
    {
      hide S.SegmentMemory.Value, Coherent, S.SegmentMemory.Shape, Tagged, Binned, BinOk, Arena.LinksOk, BestFit, NothingFits, UsedWeight;
      data := arena.Malloc(size);
    }

    method DoFree(data: nat)
      requires Valid() && data >= CHUNK_HEADER_SIZE && data - CHUNK_HEADER_SIZE in Used(arena.View())
      modifies ctl, ArenaRepr()
      ensures Valid() && Used(arena.View()) == old(Used(arena.View())) - {data - CHUNK_HEADER_SIZE}
    {
      hide S.SegmentMemory.Value, Coherent, S.SegmentMemory.Shape, Tagged, Binned, BinOk, Arena.LinksOk, UsedWeight;
      arena.Free(data);
    }

    method DoSweep(keep: set<nat>)
      requires Valid()
      modifies ctl, ArenaRepr()
      ensures Valid() && Used(arena.View()) == old(Used(arena.View())) * keep
    {
      hide S.SegmentMemory.Value, Coherent, S.SegmentMemory.Shape, Tagged, Binned, BinOk, Arena.LinksOk, UsedWeight;
      arena.Sweep(keep);
    }

    method DoShrink(newSize: nat)
      requires Valid() && newSize % 32 == 0 && arena.first + newSize <= arena.last + CHUNK_HEADER_SIZE
      modifies ArenaRepr()
      ensures Valid() && Used(arena.View()) == old(Used(arena.View()))
    {
      hide S.SegmentMemory.Value, Coherent, S.SegmentMemory.Shape, Tagged, Binned, BinOk, Arena.LinksOk, UsedWeight;
      var ok := arena.Resize(newSize);
    }

    method DoWrite(me: nat, o: nat)
      requires Valid() && 0 < me < segments.Count() && o < |segments.layout.start|
      modifies ctl, SegmentsRepr()
      ensures Valid() && Used(arena.View()) == old(Used(arena.View()))
    {
      hide Tagged, Binned, UsedWeight, Coherent, S.SegmentMemory.Shape, S.SegmentMemory.Value, S.SegmentMemory.BitsValid, S.SegmentMemory.ModifiedArePrivate;
      WriteSegment(me, o);
    }

    method WriteSegment(me: nat, o: nat)
      requires SegmentsOk() && 0 < me < segments.Count() && o < |segments.layout.start|
      modifies ctl, SegmentsRepr()
      ensures SegmentsOk() && segments.Elsewhere() == old(segments.Elsewhere())
    {
      hide S.PrivatizeRange, TakeLock, MarkRead, Coherent, S.SegmentMemory.Value, S.SegmentMemory.BitsValid, S.SegmentMemory.ModifiedArePrivate, S.SegmentMemory.PrivateFor, S.SegmentMemory.Bounded;
      ghost var m, bits, lists := segments.Value(), segments.bySegment[..], segments.modified[..];
      segments.AsPrivateFor();
      segments.AsBounded();
      segments.WriteKeeps(m, me, o);
      var taken := segments.WriteLock(me, o);
      segments.StillPrivate(bits, lists, me, o, taken);
    }

    method DoAbort(me: nat)
      requires Valid() && 0 < me < segments.Count()
      modifies ctl, SegmentsRepr()
      ensures Valid() && Used(arena.View()) == old(Used(arena.View()))
    {
      hide Tagged, Binned, UsedWeight, Coherent, S.SegmentMemory.Shape, S.SegmentMemory.Value, S.SegmentMemory.BitsValid, S.SegmentMemory.ModifiedArePrivate;
      AbortSegment(me);
    }

    method AbortSegment(me: nat)
      requires SegmentsOk() && 0 < me < segments.Count()
      modifies ctl, SegmentsRepr()
      ensures SegmentsOk() && segments.Elsewhere() == old(segments.Elsewhere())
    {
      hide Reset, ViewsAgree, LocksMatch, MarkersExact, AccessesMarked, LogsReplay;
      ghost var m := segments.Value();
      LockedByMe(me);
      segments.ResetModified(me);
      ResetKeeps(m, me);
    }

    lemma LockedByMe(me: nat)
      requires SegmentsOk() && 0 < me < segments.Count()
      ensures Unique(segments.modified[me])
      ensures forall o :: o in segments.modified[me] ==> segments.locks[segments.OwnLock(o)] == me
    {
      var m := segments.Value();
      assert m.segs[me] == segments.SegmentValue(me);
      forall o | o in segments.modified[me] ensures segments.locks[segments.OwnLock(o)] == me {
        assert m.locks[o] == segments.LockOf(o);
      }
    }

    method DoReshare()
      requires Valid()
      modifies ctl, SegmentsRepr()
      ensures Valid() && Used(arena.View()) == old(Used(arena.View()))
    {
      hide Tagged, Binned, UsedWeight, Views.Reshare, ViewsAgree, LocksMatch, MarkersExact, AccessesMarked, LogsReplay;
      ghost var m := segments.Value();
      segments.MajorReshare();
      ReshareKeeps(m);
    }

    // ----- any sequence of calls

    /** One call; one that the program could not make is left out. */
    method Perform(c: Call, live: seq<nat>) returns (live': seq<nat>)
      requires Valid() && Handed(live, Used(arena.View()))
      modifies ctl, ArenaRepr(), SegmentsRepr()
      ensures Valid() && Handed(live', Used(arena.View()))
    {
      hide Handed, System.Valid, Used, Kept, Arena.View;
      live' := live;
      match c
      case Malloc(size) =>
        if size % 8 == 0 {
          var data := DoMalloc(size);
          if data != 0 {
            live' := live + [data];
            HandedMore(live, old(Used(arena.View())), data);
          }
        }
      case Free(k) =>
        if k < |live| {
          HandedLess(live, Used(arena.View()), k);
          DoFree(live[k]);
          live' := live[..k] + live[k + 1..];
        }
      case Sweep(keep) =>
        HandedKept(live, Used(arena.View()), keep);
        DoSweep(keep);
        live' := Kept(live, keep);
      case Shrink(newSize) =>
        if newSize % 32 == 0 && arena.first + newSize <= arena.last + CHUNK_HEADER_SIZE {
          DoShrink(newSize);
        }
      case Write(me, o) =>
        if 0 < me < segments.pages.Length0 && o < |segments.layout.start| {
          DoWrite(me, o);
        }
      case Abort(me) =>
        if 0 < me < segments.pages.Length0 {
          DoAbort(me);
        }
      case Reshare =>
        DoReshare();
    }

    /** The accounts are right after any sequence of calls. */
    method Run(calls: seq<Call>) returns (live: seq<nat>)
      requires Valid() && Handed([], Used(arena.View()))
      modifies ctl, ArenaRepr(), SegmentsRepr()
      ensures Valid() && Handed(live, Used(arena.View()))
    {
      hide Handed, System.Valid, Used, Arena.View;
      live := [];
      for i := 0 to |calls|
        invariant Valid() && Handed(live, Used(arena.View()))
      {
        live := Perform(calls[i], live);
      }
    }
  }

  /** The blocks handed out and not freed yet, by address: exactly the data of the
      used chunks. */
  ghost predicate Handed(live: seq<nat>, used: set<nat>) {
    && NoRepeat(live) && (forall p :: p in live ==> p >= CHUNK_HEADER_SIZE)
    && forall a: nat {:trigger a in used} :: a in used <==> a + CHUNK_HEADER_SIZE in live
  }

  lemma HandedMore(live: seq<nat>, used: set<nat>, data: nat)
    requires Handed(live, used) && data >= CHUNK_HEADER_SIZE && data - CHUNK_HEADER_SIZE !in used
    ensures Handed(live + [data], used + {data - CHUNK_HEADER_SIZE})
  {
    assert data !in live;
  }

  lemma HandedLess(live: seq<nat>, used: set<nat>, k: nat)
    requires Handed(live, used) && k < |live|
    ensures live[k] >= CHUNK_HEADER_SIZE && live[k] - CHUNK_HEADER_SIZE in used
    ensures Handed(live[..k] + live[k + 1..], used - {live[k] - CHUNK_HEADER_SIZE})
  {
    assert live[k] in live;
    var rest := live[..k] + live[k + 1..];
    assert forall i :: 0 <= i < |rest| ==> rest[i] == live[if i < k then i else i + 1];
    forall p: nat ensures p in rest <==> p in live && p != live[k] {
      if p in live && p != live[k] {
        var i :| 0 <= i < |live| && live[i] == p;
        assert rest[if i < k then i else i - 1] == p;
      }
    }
  }

  /** The blocks that a sweep keeps. */
  function Kept(live: seq<nat>, keep: set<nat>): (r: seq<nat>)
    ensures forall p :: p in r <==> p in live && p >= CHUNK_HEADER_SIZE && p - CHUNK_HEADER_SIZE in keep
  {
    if live == [] then [] else
      (if live[0] >= CHUNK_HEADER_SIZE && live[0] - CHUNK_HEADER_SIZE in keep then [live[0]] else []) + Kept(live[1..], keep)
  }

  lemma {:induction false} KeptOnce(live: seq<nat>, keep: set<nat>)
    requires NoRepeat(live)
    ensures NoRepeat(Kept(live, keep))
  {
    if live != [] {
      KeptOnce(live[1..], keep);
      assert live[0] !in live[1..];
    }
  }

  lemma HandedKept(live: seq<nat>, used: set<nat>, keep: set<nat>)
    requires Handed(live, used)
    ensures Handed(Kept(live, keep), used * keep)
  {
    KeptOnce(live, keep);
  }
}
