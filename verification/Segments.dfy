/** The memory primitives of core.c and pages.c as they really work: loops over
    pages, objects and cards that copy bytes between segments in place.  Each is
    proved to have exactly the effect that module Views gives it. */
module Segments {
  import opened History
  import opened Views
  import opened Cards
  import opened Pages

  /** Smaller objects do not use cards. */
  const MIN_CARD_OBJ_SIZE: nat := 32 * 17

  /** Object o covers the addresses from start[o] to start[o] + size[o].  If its
      type supports cards, its items begin at base[o] and have item[o] bytes
      each; otherwise item[o] is 0. */
  datatype Layout = Layout(start: seq<nat>, size: seq<nat>, base: seq<nat>, item: seq<nat>, owner: seq<nat>) {
    ghost predicate Valid() {
      && |start| == |size| == |base| == |item|
      && (forall o :: 0 <= o < |start| && item[o] > 0 && size[o] >= MIN_CARD_OBJ_SIZE ==> base[o] + item[o] <= size[o])
      && (forall o :: 0 <= o < |start| ==> start[o] % 16 == 0 && size[o] >= 16 && start[o] + size[o] <= |owner|)
      && (forall a :: 0 <= a < |owner| ==> owner[a] < |start|)
      && (forall o, a :: 0 <= o < |start| && 0 <= a < |owner| ==>
           (owner[a] == o <==> start[o] <= a < start[o] + size[o]))
    }
  }

  /** How many (segment, page) pairs are private. */
  ghost function PrivateTotal(bits: seq<set<nat>>): nat {
    if bits == [] then 0 else PrivateTotal(bits[..|bits| - 1]) + |bits[|bits| - 1]|
  }

  lemma {:induction false} TotalUpdate(bits: seq<set<nat>>, p: nat, s: set<nat>)
    requires p < |bits|
    ensures PrivateTotal(bits[p := s]) == PrivateTotal(bits) - |bits[p]| + |s|
  {
    var n := |bits| - 1;
    if p == n {
      assert bits[p := s][..n] == bits[..n];
    } else {
      assert bits[p := s][..n] == bits[..n][p := s];
      TotalUpdate(bits[..n], p, s);
    }
  }

  lemma {:induction false} EmptyTotal(bits: seq<set<nat>>)
    requires forall p :: 0 <= p < |bits| ==> bits[p] == {}
    ensures PrivateTotal(bits) == 0
  {
    if bits != [] { EmptyTotal(bits[..|bits| - 1]); }
  }

  lemma {:induction false} SplitTotal(all: seq<set<nat>>, a: seq<set<nat>>, b: seq<set<nat>>)
    requires |all| == |a| == |b| && forall p :: 0 <= p < |all| ==> a[p] + b[p] == all[p] && a[p] !! b[p]
    ensures PrivateTotal(all) == PrivateTotal(a) + PrivateTotal(b)
  {
    var n := |all|;
    if n > 0 {
      SplitTotal(all[..n - 1], a[..n - 1], b[..n - 1]);
      assert a[n - 1] + b[n - 1] == all[n - 1];
    }
  }

  /** Privatizing the pages from `first` up to `end`. */
  ghost function PrivatizeRange(m: Memory, t: nat, first: nat, end: nat): (r: Memory)
    requires WellFormed(m) && 0 < t < |m.segs| && first <= end
    ensures WellFormed(r) && |r.segs| == |m.segs|
    decreases end - first
  {
    if first == end then m else Privatize(PrivatizeRange(m, t, first, end - 1), t, end - 1)
  }

  class SegmentMemory {
    const layout: Layout
    const pages: array2<int>         // one copy of every page per segment; 0 is the shared one
    const bySegment: array<set<nat>> // pages_privatized: the segments that have the page private
    const locks: array<nat>          // write_locks, one byte per 16 bytes of memory
    const modified: array<seq<nat>>  // modified_old_objects of every segment
    const markers: array2<nat>       // read markers, per segment and object
    const version: array<nat>        // transaction_read_version
    const ctl: PagesCtl
    ghost var marked: seq<set<nat>>
    ghost var logs: seq<seq<Op>>
    ghost var committed: seq<seq<Op>>

    ghost function Count(): nat { pages.Length0 }

    /** Nothing is private, locked or marked, and all segments are alike. */
    constructor (layout: Layout, count: nat, ctl: PagesCtl)
      requires layout.Valid() && count > 0
      ensures Shape() && this.layout == layout && Count() == count && this.ctl == ctl
      ensures fresh(pages) && fresh(bySegment) && fresh(locks) && fresh(modified) && fresh(markers) && fresh(version)
      ensures BitsValid() && ModifiedArePrivate() && PrivateTotal(bySegment[..]) == 0 && Coherent(Value())
    {
      hide ViewsAgree, LocksMatch, MarkersExact, AccessesMarked, LogsReplay, Value;
      this.layout, this.ctl := layout, ctl;
      pages := new int[count, |layout.owner|]((_, _) => 0);
      bySegment := new set<nat>[|layout.owner| / PAGE_SIZE + 1](_ => {});
      locks := new nat[|layout.owner| / 16 + 1](_ => 0);
      modified := new seq<nat>[count](_ => []);
      markers := new nat[count, |layout.start|]((_, _) => 0);
      version := new nat[count](_ => MAX_VERSION);
      marked, logs, committed := seq(count, _ => {}), seq(count, _ => []), [];
      new;
      EmptyTotal(bySegment[..]);
      Quiet();
    }

    ghost predicate Shape()
      reads this, modified
    {
      && layout.Valid()
      && 0 < Count() == modified.Length == markers.Length0 == version.Length == |marked| == |logs|
      && pages.Length1 == |layout.owner| && markers.Length1 == |layout.start|
      && locks != version
      && |layout.owner| <= bySegment.Length * PAGE_SIZE
      && |layout.owner| <= locks.Length * 16
      && (forall i, k :: 0 <= i < Count() && 0 <= k < |modified[i]| ==> modified[i][k] < |layout.start|)
    }

    predicate Private(i: nat, a: nat)
      requires Page(a) < bySegment.Length
      reads bySegment
    {
      i != 0 && i in bySegment[Page(a)]
    }

    /** REAL_ADDRESS: the byte that segment i has at address a. */
    function At(i: nat, a: nat): int
      requires i < pages.Length0 && Page(a) < bySegment.Length && a < pages.Length1
      reads bySegment, pages
    {
      pages[Copy(i, a), a]
    }

    /** Which copy of the byte at address a segment i uses. */
    function Copy(i: nat, a: nat): (c: nat)
      requires Page(a) < bySegment.Length
      reads bySegment
      ensures c <= i
    {
      if Private(i, a) then i else 0
    }

    /** The value of module Views that this object stands for. */
    ghost function Value(): Memory
      requires Shape()
      reads this, bySegment, modified, locks, version, pages, markers
    {
      Memory(layout.owner, |layout.start|,
             seq(Count(), i requires 0 <= i < Count() && Shape() reads this, bySegment, modified, locks, version, pages, markers => SegmentValue(i)),
             seq(|layout.start|, o requires 0 <= o < |layout.start| && Shape() reads this, modified, locks => LockOf(o)),
             committed)
    }

    ghost function SegmentValue(i: nat): SegmentState
      requires Shape() && i < Count()
      reads this, bySegment, modified, locks, version, pages, markers
    {
      SegmentState(Copies()[i], PrivatePages(i),
              seq(|layout.start|, o requires 0 <= o < |layout.start| && Shape() reads this, modified, markers => markers[i, o]),
              version[i], modified[i], marked[i], logs[i])
    }

    ghost function PrivatePages(i: nat): set<nat>
      reads bySegment
    {
      set p | 0 <= p < bySegment.Length && i in bySegment[p]
    }

    function LockOf(o: nat): nat
      requires Shape() && o < |layout.start|
      reads this, modified, locks
    {
      locks[layout.start[o] / 16]
    }

    // ----- copying

    /** The contents of all pages. */
    ghost function Copies(): (r: seq<seq<int>>)
      reads pages
      ensures |r| == Count()
      ensures forall i :: 0 <= i < |r| ==> |r[i]| == pages.Length1 && forall a :: 0 <= a < pages.Length1 ==> r[i][a] == pages[i, a]
    {
      seq(Count(), i requires 0 <= i < Count() reads pages =>
        seq(pages.Length1, a requires 0 <= a < pages.Length1 reads pages => pages[i, a]))
    }

    ghost predicate Fits(c: seq<seq<int>>)
      reads bySegment
    {
      && |c| == Count() && |layout.owner| <= bySegment.Length * PAGE_SIZE
      && forall i :: 0 <= i < |c| ==> |c[i]| == |layout.owner|
    }

    /** memcpy from segment src to segment dst at the same addresses. */
    method CopyBytes(dst: nat, src: nat, start: nat, n: nat)
      requires Shape() && dst < Count() && src < Count() && start + n <= |layout.owner|
      modifies pages
      ensures Shape()
      ensures forall i, a :: 0 <= i < Count() && 0 <= a < |layout.owner| ==>
        pages[i, a] == (if start <= a < start + n && i == Copy(dst, a) then old(At(src, a)) else old(pages[i, a]))
    {
      var k := 0;
      while k < n
        invariant 0 <= k <= n
        invariant forall i, a :: 0 <= i < Count() && 0 <= a < |layout.owner| ==>
          pages[i, a] == (if start <= a < start + k && i == Copy(dst, a) then old(At(src, a)) else old(pages[i, a]))
      {
        var a := start + k;
        pages[Copy(dst, a), a] := At(src, a);
        k := k + 1;
      }
    }

    /** From `was` to `now`, the bytes lo to hi that segment me has went to the
        shared pages and to every private copy elsewhere; nothing else changed. */
    ghost predicate Synced(was: seq<seq<int>>, now: seq<seq<int>>, me: nat, lo: nat, hi: nat)
      requires Fits(was) && Fits(now) && me < Count()
      reads bySegment
    {
      forall i, a :: 0 <= i < Count() && 0 <= a < |layout.owner| ==>
        now[i][a] == (if lo <= a < hi && (i == 0 || (i != me && Private(i, a))) then was[Copy(me, a)][a] else was[i][a])
    }

    lemma SyncedFurther(was: seq<seq<int>>, mid: seq<seq<int>>, now: seq<seq<int>>, me: nat, lo: nat, middle: nat, hi: nat)
      requires Fits(was) && Fits(mid) && Fits(now) && 0 < me < Count() && lo <= middle <= hi
      requires Synced(was, mid, me, lo, middle) && Synced(mid, now, me, middle, hi)
      ensures Synced(was, now, me, lo, hi)
    {
    }

    lemma SyncedRange(was: seq<seq<int>>, now: seq<seq<int>>, me: nat, lo: nat, hi: nat)
      requires Fits(was) && Fits(now) && me < Count()
      ensures Synced(was, now, me, lo, hi) <==> SyncedOn(was, now, me, Range(lo, hi))
    {
      assert forall a: nat :: a in Range(lo, hi) <==> lo <= a < hi;
    }

    lemma SyncedMore(was: seq<seq<int>>, mid: seq<seq<int>>, now: seq<seq<int>>, me: nat, bytes: set<nat>, lo: nat, hi: nat)
      requires Fits(was) && Fits(mid) && Fits(now) && 0 < me < Count()
      requires SyncedOn(was, mid, me, bytes) && Synced(mid, now, me, lo, hi)
      ensures SyncedOn(was, now, me, bytes + Range(lo, hi))
    {
      assert forall a: nat :: a in Range(lo, hi) <==> lo <= a < hi;
    }

    /** The same for a set of bytes. */
    ghost predicate SyncedOn(was: seq<seq<int>>, now: seq<seq<int>>, me: nat, bytes: set<nat>)
      requires Fits(was) && Fits(now) && me < Count()
      reads bySegment
    {
      forall i, a :: 0 <= i < Count() && 0 <= a < |layout.owner| ==>
        now[i][a] == (if a in bytes && (i == 0 || (i != me && Private(i, a))) then was[Copy(me, a)][a] else was[i][a])
    }

    /** _page_wise_synchronize_object_now, for the object at start to end. */
    method PageWiseSynchronize(me: nat, start: nat, end: nat)
      requires Shape() && 0 < me < Count() && start < end <= |layout.owner|
      modifies pages
      ensures Shape() && Synced(old(Copies()), Copies(), me, start, end)
    {
      ghost var was := Copies();
      var from := start;
      var page := Page(start);
      var lastPage := Page(end - 1);
      while page <= lastPage
        invariant Shape() && page <= lastPage + 1 && start <= from
        invariant if page <= lastPage then from < end && Page(from) == page else from >= end
        invariant Synced(was, Copies(), me, start, if from < end then from else end)
      {
        ghost var mid := Copies();
        var next := NextFragment(me, from, end, page, lastPage);
        SyncedFurther(was, mid, Copies(), me, start, from, if next < end then next else end);
        from, page := next, page + 1;
      }
    }

    method NextFragment(me: nat, from: nat, end: nat, page: nat, lastPage: nat) returns (next: nat)
      requires Shape() && 0 < me < Count() && from < end <= |layout.owner|
      requires page == Page(from) <= lastPage == Page(end - 1)
      modifies pages
      ensures Shape() && next > from && Synced(old(Copies()), Copies(), me, from, if next < end then next else end)
      ensures if page < lastPage then next < end && Page(next) == page + 1 else next >= end
    {
      var size := if page == lastPage then end - from else PAGE_SIZE - from % PAGE_SIZE;
      next := (from / PAGE_SIZE + 1) * PAGE_SIZE;
      FragmentBounds(from, end, page, lastPage, size, next);
      SynchronizeFragment(me, from, size);
    }

    /** The part of an object that lies on the page of `from`, and where the
        next page begins. */
    lemma FragmentBounds(from: nat, end: nat, page: nat, lastPage: nat, size: nat, next: nat)
      requires from < end && page == Page(from) <= lastPage == Page(end - 1)
      requires size == if page == lastPage then end - from else PAGE_SIZE - from % PAGE_SIZE
      requires next == (from / PAGE_SIZE + 1) * PAGE_SIZE
      ensures 0 < size && from % PAGE_SIZE + size <= PAGE_SIZE && from + size <= end
      ensures page < lastPage ==> next == from + size && next < end && Page(next) == page + 1
      ensures page == lastPage ==> from + size == end && next >= end
    {
    }

    lemma SamePage(from: nat, size: nat)
      requires from % PAGE_SIZE + size <= PAGE_SIZE
      ensures forall a :: from <= a < from + size ==> Page(a) == Page(from)
    {
      forall a | from <= a < from + size ensures Page(a) == Page(from) {
        assert a == from / PAGE_SIZE * PAGE_SIZE + (from % PAGE_SIZE + (a - from));
      }
    }

    /** One fragment, within one page: first to the shared page if needed, then
        to the private copies of the other segments. */
    method SynchronizeFragment(me: nat, from: nat, size: nat)
      requires Shape() && 0 < me < Count() && from + size <= |layout.owner| && size > 0
      requires from % PAGE_SIZE + size <= PAGE_SIZE
      modifies pages
      ensures Shape() && Synced(old(Copies()), Copies(), me, from, from + size)
    {
      ghost var was := Copies();
      SamePage(from, size);
      if Private(me, from) {
        CopyBytes(0, me, from, size);
      }
      var i := 1;
      while i < pages.Length0
        invariant 1 <= i <= Count()
        invariant forall a :: 0 <= a < |layout.owner| ==>
          pages[0, a] == (if from <= a < from + size then was[Copy(me, a)][a] else was[0][a])
        invariant forall j, a :: 0 < j < Count() && 0 <= a < |layout.owner| ==>
          pages[j, a] == (if from <= a < from + size && j < i && j != me && Private(j, a) then was[Copy(me, a)][a] else was[j][a])
      {
        if i != me {
          FragmentToSegment(i, me, from, size);
        }
        i := i + 1;
      }
    }

    method FragmentToSegment(i: nat, me: nat, from: nat, size: nat)
      requires Shape() && 0 < me < Count() && 0 < i < Count() && i != me && from + size <= |layout.owner|
      requires size > 0 && forall a :: from <= a < from + size ==> Page(a) == Page(from)
      modifies pages
      ensures forall j, a :: 0 <= j < Count() && 0 <= a < |layout.owner| ==>
        pages[j, a] == (if from <= a < from + size && j == i && Private(i, a) then old(At(me, a)) else old(pages[j, a]))
    {
      if Private(i, from) {
        CopyBytes(i, me, from, size);
      }
    }

    // ----- cards

    /** How the items of an object are laid out, as the type of the object says:
        they begin at `base` and have `item` bytes each. */
    predicate CardLayout(o: nat, base: nat, item: nat)
      requires o < |layout.size|
    {
      item > 0 && layout.size[o] >= MIN_CARD_OBJ_SIZE && base + item <= layout.size[o]
    }

    /** The number of the last card. */
    function LastCard(o: nat, base: nat, item: nat): nat
      requires o < |layout.size| && CardLayout(o, base, item)
    {
      ItemCount(layout.size[o] - base, item);
      ((layout.size[o] - base) / item - 1) / CARD_SIZE + 1
    }

    /** Where card c begins; the last card is cut off at the end of the object. */
    function CardStart(o: nat, base: nat, item: nat, c: nat): (a: nat)
      requires o < |layout.start| && o < |layout.size| && c > 0
      ensures a <= layout.start[o] + layout.size[o]
    {
      var ofs := base + (c - 1) * CARD_SIZE * item;
      layout.start[o] + if ofs > layout.size[o] then layout.size[o] else ofs
    }

    function CardLock(o: nat, c: nat): nat
      requires o < |layout.start|
    {
      layout.start[o] / 16 + c
    }

    lemma CardLocksExist(o: nat, base: nat, item: nat)
      requires Shape() && o < |layout.start| && CardLayout(o, base, item)
      ensures 0 < LastCard(o, base, item) && CardLock(o, LastCard(o, base, item)) < locks.Length
    {
      ItemCount(layout.size[o] - base, item);
      assert 16 * LastCard(o, base, item) < layout.size[o];
    }

    lemma ItemCount(n: nat, item: nat)
      requires 0 < item <= n
      ensures 0 < n / item <= n
    {
      assert n == item * (n / item) + n % item;
      AtLeast(n / item, item);
    }

    lemma AtLeast(q: nat, item: nat)
      requires item >= 1
      ensures item * q >= q
    {
    }

    /** The boundaries of all cards, entry 0 being the start of the object and
        entry c the start of card c. */
    ghost function Boundaries(o: nat, base: nat, item: nat): (b: seq<nat>)
      requires o < |layout.start| == |layout.size| && CardLayout(o, base, item)
      ensures |b| == LastCard(o, base, item) + 2 && AreBoundaries(b, o, base, item)
    {
      seq(LastCard(o, base, item) + 2, c requires 0 <= c => if c == 0 then layout.start[o] else CardStart(o, base, item, c))
    }

    ghost predicate AreBoundaries(b: seq<nat>, o: nat, base: nat, item: nat)
      requires o < |layout.start| == |layout.size|
    {
      |b| > 1 && b[0] == layout.start[o] && forall c {:trigger CardStart(o, base, item, c)} :: 0 < c < |b| ==> b[c] == CardStart(o, base, item, c)
    }

    ghost predicate Ascending(b: seq<nat>, end: nat) {
      (forall c, d :: 0 <= c <= d < |b| ==> b[c] <= b[d]) && forall c :: 0 <= c < |b| ==> b[c] <= end
    }

    lemma Ascend(o: nat, base: nat, item: nat, c: nat, d: nat)
      requires o < |layout.start| && o < |layout.size| && 0 < c <= d
      ensures layout.start[o] <= CardStart(o, base, item, c) <= CardStart(o, base, item, d)
    {
      var x, y := (c - 1) * CARD_SIZE, (d - 1) * CARD_SIZE;
      Scale(x, y, item);
    }

    lemma Scale(x: nat, y: nat, item: nat)
      requires x <= y
      ensures x * item <= y * item
    {
    }

    lemma BoundariesAscend(o: nat, base: nat, item: nat, b: seq<nat>)
      requires o < |layout.start| == |layout.size| && AreBoundaries(b, o, base, item)
      ensures Ascending(b, layout.start[o] + layout.size[o])
    {
      forall c, d | 0 <= c <= d < |b| ensures b[c] <= b[d] {
        if 0 < d { Ascend(o, base, item, if 0 < c then c else 1, d); }
        if 0 < c { assert b[c] == CardStart(o, base, item, c); }
        if 0 < d { assert b[d] == CardStart(o, base, item, d); }
      }
      forall c | 0 <= c < |b| ensures b[c] <= layout.start[o] + layout.size[o] {
        if 0 < c { assert b[c] == CardStart(o, base, item, c); }
      }
    }

    /** The lock bytes of the cards of an object, from entry 1 on. */
    function CardsOf(marks: seq<nat>, o: nat, last: nat): (cards: seq<nat>)
      requires o < |layout.start| && CardLock(o, last) < |marks|
      ensures |cards| == last + 1 && forall d :: 0 <= d <= last ==> cards[d] == marks[CardLock(o, d)]
    {
      marks[CardLock(o, 0)..CardLock(o, last) + 1]
    }

    /** The cards are clear or marked: the minor collection before left nothing else. */
    predicate CardMarks(marks: seq<nat>, o: nat, last: nat)
      requires o < |layout.start|
    {
      CardLock(o, last) < |marks| && forall d {:trigger CardLock(o, d)} :: 0 < d <= last ==>
        marks[CardLock(o, d)] == CARD_CLEAR || marks[CardLock(o, d)] == CARD_MARKED_OLD
    }

    predicate NoMarks(marks: seq<nat>, o: nat, last: nat)
      requires o < |layout.start|
    {
      CardLock(o, last) < |marks| && forall d {:trigger CardLock(o, d)} :: 0 < d <= last ==> marks[CardLock(o, d)] == CARD_CLEAR
    }

    /** Outside of these bytes of the object, the others have what segment me has. */
    ghost predicate AgreeBut(c: seq<seq<int>>, me: nat, lo: nat, hi: nat, bytes: set<nat>)
      requires Fits(c) && me < Count()
      reads bySegment
    {
      forall i, a: nat :: 0 <= i < Count() && lo <= a < hi && a < |layout.owner| && a !in bytes && (i == 0 || (i != me && Private(i, a))) ==>
        c[i][a] == c[Copy(me, a)][a]
    }

    /** Copying some bytes of an object is as good as copying all, exactly if the
        others agree on the rest already. */
    lemma PartIsEnough(was: seq<seq<int>>, now: seq<seq<int>>, me: nat, lo: nat, hi: nat, bytes: set<nat>)
      requires Fits(was) && Fits(now) && 0 < me < Count() && bytes <= Range(lo, hi) && SyncedOn(was, now, me, bytes)
      ensures Synced(was, now, me, lo, hi) <==> AgreeBut(was, me, lo, hi, bytes)
    {
      assert forall a: nat :: a in bytes ==> lo <= a < hi;
      if Synced(was, now, me, lo, hi) {
        forall i, a: nat | 0 <= i < Count() && lo <= a < hi && a < |layout.owner| && a !in bytes && (i == 0 || (i != me && Private(i, a)))
          ensures was[i][a] == was[Copy(me, a)][a]
        {
          assert now[i][a] == was[i][a];
        }
      }
    }

    /** The cards of object o below `upTo` are clear, all else is as in `marks`. */
    ghost predicate CardsCleared(marks: seq<nat>, o: nat, upTo: nat)
      requires o < |layout.start|
      reads locks
    {
      |marks| == locks.Length && forall k :: 0 <= k < locks.Length ==>
        locks[k] == if CardLock(o, 1) <= k < CardLock(o, upTo) then CARD_CLEAR else marks[k]
    }

    /** _reset_object_cards with CARD_CLEAR. */
    method ClearCards(o: nat, last: nat)
      requires o < |layout.start| && 0 < last && CardLock(o, last) < locks.Length
      modifies locks
      ensures CardsCleared(old(locks[..]), o, last + 1)
    {
      var c := 1;
      while c <= last
        invariant 1 <= c <= last + 1
        invariant CardsCleared(old(locks[..]), o, c)
      {
        if locks[CardLock(o, c)] != CARD_CLEAR {
          locks[CardLock(o, c)] := CARD_CLEAR;
        }
        c := c + 1;
      }
    }

    /** Copies one stretch of marked cards to the shared pages, and to every
        segment that has a private page there. */
    method CopyStretch(me: nat, lo: nat, hi: nat)
      requires Shape() && 0 < me < Count() && lo <= hi <= |layout.owner|
      modifies pages
      ensures Shape() && Synced(old(Copies()), Copies(), me, lo, hi)
    {
      ghost var was := Copies();
      CopyBytes(0, me, lo, hi - lo);
      var i := 1;
      while i < pages.Length0
        invariant 1 <= i <= Count()
        invariant forall a :: 0 <= a < |layout.owner| ==>
          pages[0, a] == (if lo <= a < hi then was[Copy(me, a)][a] else was[0][a])
        invariant forall j, a :: 0 < j < Count() && 0 <= a < |layout.owner| ==>
          pages[j, a] == (if lo <= a < hi && j < i && j != me && Private(j, a) then was[Copy(me, a)][a] else was[j][a])
      {
        if i != me {
          CopyToSegment(i, me, lo, hi);
        }
        i := i + 1;
      }
    }

    method CopyToSegment(i: nat, me: nat, lo: nat, hi: nat)
      requires Shape() && 0 < me < Count() && 0 < i < Count() && i != me && lo <= hi <= |layout.owner|
      requires forall a :: lo <= a < hi ==> pages[0, a] == At(me, a)
      modifies pages
      ensures Shape()
      ensures forall j, a :: 0 <= j < Count() && 0 <= a < |layout.owner| ==>
        pages[j, a] == (if lo <= a < hi && j == i && Private(i, a) then old(At(me, a)) else old(pages[j, a]))
    {
      var any := HasPrivatePageInRange(i, lo, hi);
      if any {
        CopyBytes(i, me, lo, hi - lo);
      }
    }

    /** _has_private_page_in_range; it also looks at the page just after the
        range when the range ends with its page. */
    method HasPrivatePageInRange(i: nat, lo: nat, hi: nat) returns (any: bool)
      requires Shape() && 0 < i < Count() && lo <= hi <= |layout.owner|
      ensures !any ==> forall a :: lo <= a < hi ==> !Private(i, a)
    {
      var page := Page(lo);
      var lastPage := Page(hi);
      while page <= lastPage
        invariant page <= lastPage + 1
        invariant forall a :: lo <= a < hi && Page(a) < page ==> !Private(i, a)
      {
        if page < bySegment.Length && i in bySegment[page] {
          return true;
        }
        page := page + 1;
      }
      return false;
    }

    /** _card_wise_synchronize_object_now: copies only the marked cards, several
        neighbouring ones at a time, unless the object looks fully marked or has
        no marked card at all. */
    method CardWiseSynchronize(me: nat, o: nat, base: nat, item: nat)
      requires Shape() && 0 < me < Count() && o < |layout.start| && CardLayout(o, base, item)
      requires CardMarks(locks[..], o, LastCard(o, base, item))
      modifies pages, locks
      ensures Shape() && SyncedOn(old(Copies()), Copies(), me, CopiedOf(old(locks[..]), o, base, item))
      ensures CardsCleared(old(locks[..]), o, LastCard(o, base, item) + 1)
    {
      hide Synced, SyncedOn, Range, CardsCleared, MarkedBytes, CardMarks, AreBoundaries, SomeMarked;
      CardLocksExist(o, base, item);
      var last := LastCard(o, base, item);
      ghost var b := Boundaries(o, base, item);
      ghost var cards := CardsOf(locks[..], o, last);
      if LooksFull(o, last) {
        ClearAndCopyAll(me, o, last);
      } else {
        CopyMarkedCards(me, o, base, item, last, b, cards);
      }
    }

    /** The bytes of the object that the commit copies. */
    ghost function CopiedOf(marks: seq<nat>, o: nat, base: nat, item: nat): set<nat>
      requires o < |layout.start| == |layout.size| && CardLayout(o, base, item) && CardLock(o, LastCard(o, base, item)) < |marks|
    {
      LastPositive(o, base, item);
      Copied(CardsOf(marks, o, LastCard(o, base, item)), Boundaries(o, base, item), layout.start[o] + layout.size[o])
    }

    lemma LastPositive(o: nat, base: nat, item: nat)
      requires o < |layout.size| && CardLayout(o, base, item)
      ensures 0 < LastCard(o, base, item)
    {
    }

    method ClearAndCopyAll(me: nat, o: nat, last: nat)
      requires Shape() && 0 < me < Count() && o < |layout.start| && 0 < last && CardLock(o, last) < locks.Length
      modifies pages, locks
      ensures Shape() && SyncedOn(old(Copies()), Copies(), me, Range(layout.start[o], layout.start[o] + layout.size[o]))
      ensures CardsCleared(old(locks[..]), o, last + 1)
    {
      hide Synced, SyncedOn, Range, CardsCleared;
      ghost var was := Copies();
      ClearCards(o, last);
      PageWiseSynchronize(me, layout.start[o], layout.start[o] + layout.size[o]);
      SyncedRange(was, Copies(), me, layout.start[o], layout.start[o] + layout.size[o]);
    }

    method CopyMarkedCards(me: nat, o: nat, base: nat, item: nat, last: nat, ghost b: seq<nat>, ghost cards: seq<nat>)
      requires Shape() && 0 < me < Count() && o < |layout.start| && CardLayout(o, base, item)
      requires 0 < last && CardLock(o, last) < locks.Length && |b| == last + 2 && AreBoundaries(b, o, base, item)
      requires cards == CardsOf(locks[..], o, last) && CardMarks(locks[..], o, last) && !LooksFullyMarked(cards)
      modifies pages, locks
      ensures Shape() && SyncedOn(old(Copies()), Copies(), me, Copied(cards, b, layout.start[o] + layout.size[o]))
      ensures CardsCleared(old(locks[..]), o, last + 1)
    {
      hide Synced, SyncedOn, Range, CardsCleared, CardMarks, MarkedBytes, CardsOf, IsMarked, LastCard, CardLayout;
      ghost var was := Copies();
      var allClear := SynchronizeMarkedCards(me, o, base, item, last, b, cards);
      if allClear {
        SameCopies(was, Copies(), me);
        PageWiseSynchronize(me, layout.start[o], layout.start[o] + layout.size[o]);
        SyncedRange(was, Copies(), me, layout.start[o], layout.start[o] + layout.size[o]);
      }
    }

    lemma SameCopies(was: seq<seq<int>>, now: seq<seq<int>>, me: nat)
      requires Fits(was) && Fits(now) && me < Count() && SyncedOn(was, now, me, {})
      ensures now == was
    {
      forall i | 0 <= i < Count() ensures now[i] == was[i] {
        forall a | 0 <= a < |layout.owner| ensures now[i][a] == was[i][a] {
          var none: set<nat> := {};
          assert SyncedOn(was, now, me, none) && a !in none;
        }
      }
    }

    predicate LooksFull(o: nat, last: nat)
      requires o < |layout.start| && 0 < last && CardLock(o, last) < locks.Length
      reads locks
    {
      && locks[CardLock(o, 1)] == CARD_MARKED_OLD
      && locks[CardLock(o, last)] == CARD_MARKED_OLD
      && locks[CardLock(o, last / 2 + 1)] == CARD_MARKED_OLD
    }

    /** Where the loop over the cards is when it comes to `card`: `first` is the
        first card of the current stretch of marked ones, 0 if there is none. */
    ghost predicate Progress(was: seq<seq<int>>, marks: seq<nat>, cards: seq<nat>, b: seq<nat>, me: nat, o: nat,
                             card: nat, first: nat, allClear: bool)
      requires Fits(was) && Fits(Copies()) && o < |layout.start| == |layout.size| && me < Count() && |b| == |cards| + 1
      reads this, bySegment, pages, locks
    {
      && 1 <= card <= |cards| && first < card && (card == |cards| ==> first == 0)
      && CardsCleared(marks, o, card)
      && (allClear <==> forall d :: 0 < d < card ==> !IsMarked(cards, d))
      && (first != 0 ==> forall d :: first <= d < card ==> IsMarked(cards, d))
      && SyncedOn(was, Copies(), me, MarkedBytes(cards, b, if first == 0 then card else first))
    }

    /** The loop over the cards. */
    method SynchronizeMarkedCards(me: nat, o: nat, base: nat, item: nat, last: nat, ghost b: seq<nat>, ghost cards: seq<nat>) returns (allClear: bool)
      requires Shape() && 0 < me < Count() && o < |layout.start| && CardLayout(o, base, item)
      requires 0 < last && CardLock(o, last) < locks.Length && |b| == last + 2 && AreBoundaries(b, o, base, item)
      requires CardMarks(locks[..], o, last) && cards == CardsOf(locks[..], o, last)
      modifies pages, locks
      ensures Shape() && CardsCleared(old(locks[..]), o, last + 1) && (allClear <==> !SomeMarked(cards))
      ensures SyncedOn(old(Copies()), Copies(), me, if allClear then {} else MarkedBytes(cards, b, |cards|))
    {
      hide Synced, SyncedOn, CardMarks, Ascending, AreBoundaries, CardLayout, CardsCleared, MarkedBytes;
      ghost var was, marks := Copies(), locks[..];
      BoundariesAscend(o, base, item, b);
      var first := 0;
      var card := 1;
      allClear := true;
      NothingDone(marks, cards, b, me, o);
      while card <= last
        invariant Shape() && 1 <= card <= last + 1 && Progress(was, marks, cards, b, me, o, card, first, allClear)
      {
        first, allClear := NextCard(me, o, base, item, last, card, first, allClear, was, marks, cards, b);
        card := card + 1;
      }
      if allClear { NoneMarked(cards, b, |cards|); }
    }

    lemma NothingDone(marks: seq<nat>, cards: seq<nat>, b: seq<nat>, me: nat, o: nat)
      requires Shape() && o < |layout.start| && me < Count() && |b| == |cards| + 1 > 1 && marks == locks[..]
      requires |cards| > 1 && Fits(Copies())
      ensures Progress(Copies(), marks, cards, b, me, o, 1, 0, true)
    {
    }

    method TakeMark(o: nat, last: nat, card: nat, ghost marks: seq<nat>, ghost cards: seq<nat>) returns (marked: bool)
      requires o < |layout.start| && 0 < card <= last && CardLock(o, last) < locks.Length == |marks|
      requires CardMarks(marks, o, last) && cards == CardsOf(marks, o, last) && CardsCleared(marks, o, card)
      modifies locks
      ensures CardsCleared(marks, o, card + 1) && (marked <==> IsMarked(cards, card))
    {
      marked := locks[CardLock(o, card)] == CARD_MARKED_OLD;
      if marked {
        locks[CardLock(o, card)] := CARD_CLEAR;
      }
    }

    /** One round of the loop over the cards: clears the card, and copies the
        stretch of marked cards that ends here, if any. */
    method NextCard(me: nat, o: nat, base: nat, item: nat, last: nat, card: nat, first: nat, allClear: bool,
                    ghost was: seq<seq<int>>, ghost marks: seq<nat>, ghost cards: seq<nat>, ghost b: seq<nat>)
      returns (first': nat, allClear': bool)
      requires Shape() && o < |layout.start| && CardLayout(o, base, item) && 0 < me < Count() && 0 < card <= last
      requires CardLock(o, last) < locks.Length == |marks| && |b| == last + 2 && AreBoundaries(b, o, base, item)
      requires Ascending(b, layout.start[o] + layout.size[o])
      requires Fits(was) && CardMarks(marks, o, last) && cards == CardsOf(marks, o, last)
      requires Progress(was, marks, cards, b, me, o, card, first, allClear)
      modifies pages, locks
      ensures Shape() && Progress(was, marks, cards, b, me, o, card + 1, first', allClear')
    {
      hide SyncedOn, Range, CardsCleared, CardMarks, MarkedBytes, Ascending, AreBoundaries, CardLayout;
      first', allClear' := first, allClear;
      var marked := TakeMark(o, last, card, marks, cards);
      if marked {
        if first' == 0 {
          first' := card;
        }
        allClear' := false;
      }
      if first' != 0 && (!marked || card == last) {
        var next := if marked then card + 1 else card;
        CopyCards(me, o, base, item, first', next, was, cards, b);
        first' := 0;
      }
      NotMarkedAdds(cards, b, card);
    }

    lemma NotMarkedAdds(cards: seq<nat>, b: seq<nat>, card: nat)
      requires 0 < card < |cards| && |b| == |cards| + 1
      ensures !IsMarked(cards, card) ==> MarkedBytes(cards, b, card + 1) == MarkedBytes(cards, b, card)
    {
    }

    method CopyCards(me: nat, o: nat, base: nat, item: nat, first: nat, next: nat,
                     ghost was: seq<seq<int>>, ghost cards: seq<nat>, ghost b: seq<nat>)
      requires Shape() && o < |layout.start| && CardLayout(o, base, item) && 0 < me < Count() && 0 < first <= next < |b|
      requires AreBoundaries(b, o, base, item) && |b| == |cards| + 1 && |cards| > 1
      requires Ascending(b, layout.start[o] + layout.size[o]) && forall d :: first <= d < next ==> IsMarked(cards, d)
      requires Fits(was) && SyncedOn(was, Copies(), me, MarkedBytes(cards, b, first))
      modifies pages
      ensures Shape() && SyncedOn(was, Copies(), me, MarkedBytes(cards, b, next))
    {
      ghost var mid := Copies();
      CopyStretch(me, CardStart(o, base, item, first), CardStart(o, base, item, next));
      SyncedMore(was, mid, Copies(), me, MarkedBytes(cards, b, first), b[first], b[next]);
      MarkedStretch(cards, b, first, next, layout.start[o] + layout.size[o]);
    }

    // ----- whole objects

    /** obj_should_use_cards */
    predicate UsesCards(o: nat)
      requires o < |layout.size| && o < |layout.item|
    {
      layout.item[o] > 0 && layout.size[o] >= MIN_CARD_OBJ_SIZE
    }

    /** The lock byte k lies inside object o. */
    predicate Belongs(k: nat, o: nat) {
      16 * k < |layout.owner| && layout.owner[16 * k] == o
    }

    function OwnLock(o: nat): nat
      requires o < |layout.start|
    {
      layout.start[o] / 16
    }

    /** There is a lock byte for every card. */
    ghost predicate HasLocks(marks: seq<nat>, o: nat)
      requires layout.Valid() && o < |layout.start|
    {
      UsesCards(o) ==> CardLock(o, LastCard(o, layout.base[o], layout.item[o])) < |marks|
    }

    /** The bytes that synchronize_object_now copies. */
    ghost function CopiedBytes(marks: seq<nat>, o: nat): set<nat>
      requires layout.Valid() && o < |layout.start| && HasLocks(marks, o)
    {
      if UsesCards(o) then CopiedOf(marks, o, layout.base[o], layout.item[o]) else Range(layout.start[o], layout.start[o] + layout.size[o])
    }

    ghost predicate MarksOk(marks: seq<nat>, o: nat)
      requires layout.Valid() && o < |layout.start|
    {
      UsesCards(o) ==> CardMarks(marks, o, LastCard(o, layout.base[o], layout.item[o]))
    }

    /** Copying those bytes is as good as copying the object: see Barriers.HonestExactly
        for when the write barriers make sure of it. */
    ghost predicate Honest(c: seq<seq<int>>, marks: seq<nat>, me: nat, o: nat)
      requires layout.Valid() && Fits(c) && me < Count() && o < |layout.start|
      reads bySegment
    {
      MarksOk(marks, o) && AgreeBut(c, me, layout.start[o], layout.start[o] + layout.size[o], CopiedBytes(marks, o))
    }

    ghost predicate CardsClear(marks: seq<nat>, o: nat)
      requires layout.Valid() && o < |layout.start|
    {
      UsesCards(o) ==> NoMarks(marks, o, LastCard(o, layout.base[o], layout.item[o]))
    }

    lemma LocksBelong(o: nat)
      requires Shape() && o < |layout.start|
      ensures Belongs(OwnLock(o), o) && OwnLock(o) < locks.Length
      ensures UsesCards(o) ==> forall c {:trigger CardLock(o, c)} ::
        0 <= c <= LastCard(o, layout.base[o], layout.item[o]) ==> Belongs(CardLock(o, c), o) && CardLock(o, c) < locks.Length
    {
      if UsesCards(o) {
        var last := LastCard(o, layout.base[o], layout.item[o]);
        ItemCount(layout.size[o] - layout.base[o], layout.item[o]);
        assert 16 * last < layout.size[o];
      }
    }

    /** synchronize_object_now: as good as copying the whole object, exactly if the
        others agree on what is not copied. */
    method SynchronizeObject(me: nat, o: nat)
      requires Shape() && 0 < me < Count() && o < |layout.start| && MarksOk(locks[..], o)
      modifies pages, locks
      ensures Shape() && SyncedOn(old(Copies()), Copies(), me, CopiedBytes(old(locks[..]), o))
      ensures Synced(old(Copies()), Copies(), me, layout.start[o], layout.start[o] + layout.size[o]) <==> old(Honest(Copies(), locks[..], me, o))
      ensures CardsClear(locks[..], o)
      ensures forall k :: 0 <= k < locks.Length && (k == OwnLock(o) || !Belongs(k, o)) ==> locks[k] == old(locks[k])
    {
      hide Synced, SyncedOn, Range, CardsCleared, AgreeBut, CopiedOf, LastCard;
      LocksBelong(o);
      ghost var was, marks := Copies(), locks[..];
      if UsesCards(o) {
        CardWiseSynchronize(me, o, layout.base[o], layout.item[o]);
        ClearedCards(marks, o);
      } else {
        PageWiseSynchronize(me, layout.start[o], layout.start[o] + layout.size[o]);
        SyncedRange(was, Copies(), me, layout.start[o], layout.start[o] + layout.size[o]);
      }
      CopiedWithin(marks, o);
      PartIsEnough(was, Copies(), me, layout.start[o], layout.start[o] + layout.size[o], CopiedBytes(marks, o));
    }

    lemma CopiedWithin(marks: seq<nat>, o: nat)
      requires Shape() && o < |layout.start| && MarksOk(marks, o)
      ensures CopiedBytes(marks, o) <= Range(layout.start[o], layout.start[o] + layout.size[o])
    {
      if UsesCards(o) {
        var base, item := layout.base[o], layout.item[o];
        var b := Boundaries(o, base, item);
        LastPositive(o, base, item);
        BoundariesAscend(o, base, item, b);
        CopiedInside(CardsOf(marks, o, LastCard(o, base, item)), b, layout.start[o] + layout.size[o]);
      }
    }

    lemma ClearedCards(marks: seq<nat>, o: nat)
      requires Shape() && o < |layout.start| && UsesCards(o)
      requires CardsCleared(marks, o, LastCard(o, layout.base[o], layout.item[o]) + 1)
      ensures CardsClear(locks[..], o)
      ensures forall k :: 0 <= k < locks.Length && (k == OwnLock(o) || !Belongs(k, o)) ==> locks[k] == marks[k]
    {
      LocksBelong(o);
      var last := LastCard(o, layout.base[o], layout.item[o]);
      forall k | CardLock(o, 1) <= k < CardLock(o, last + 1) ensures Belongs(k, o) && k != OwnLock(o) {
        assert k == CardLock(o, k - CardLock(o, 0));
      }
    }

    // ----- commit

    lemma SameCopied(marks: seq<nat>, marks': seq<nat>, o: nat)
      requires Shape() && o < |layout.start| && |marks| == |marks'| == locks.Length && MarksOk(marks, o)
      requires forall k :: 0 <= k < locks.Length && Belongs(k, o) && k != OwnLock(o) ==> marks'[k] == marks[k]
      ensures MarksOk(marks', o) && HasLocks(marks, o) && HasLocks(marks', o) && CopiedBytes(marks', o) == CopiedBytes(marks, o)
    {
      LocksBelong(o);
      if UsesCards(o) {
        var base, item := layout.base[o], layout.item[o];
        var last := LastCard(o, base, item);
        LastPositive(o, base, item);
        assert forall d {:trigger CardLock(o, d)} :: 0 < d <= last ==> marks'[CardLock(o, d)] == marks[CardLock(o, d)];
        SameMarked(CardsOf(marks, o, last), CardsOf(marks', o, last), Boundaries(o, base, item), layout.start[o] + layout.size[o]);
      }
    }

    /** From `was` to `now`, what segment me has in the objects `done` went to the
        shared pages and to every private copy elsewhere. */
    ghost predicate PushedObjects(was: seq<seq<int>>, now: seq<seq<int>>, me: nat, done: seq<nat>)
      requires layout.Valid() && Fits(was) && Fits(now) && me < Count()
      reads bySegment
    {
      forall i, a :: 0 <= i < Count() && 0 <= a < |layout.owner| ==>
        now[i][a] == if layout.owner[a] in done && (i == 0 || (i != me && Private(i, a))) then was[Copy(me, a)][a] else was[i][a]
    }

    /** The objects `done` are unlocked and have no marked card; no other lock
        byte changed. */
    ghost predicate Released(marks: seq<nat>, now: seq<nat>, done: seq<nat>)
      requires layout.Valid() && forall o :: o in done ==> o < |layout.start|
    {
      && |marks| == |now| && |layout.owner| <= |now| * 16
      && (forall o :: o in done ==> now[OwnLock(o)] == 0 && CardsClear(now, o))
      && (forall k :: 0 <= k < |now| && (16 * k < |layout.owner| ==> layout.owner[16 * k] !in done) ==> now[k] == marks[k])
    }

    ghost predicate AllMarksOk(marks: seq<nat>, list: seq<nat>)
      requires layout.Valid()
    {
      forall o :: o in list ==> o < |layout.start| && MarksOk(marks, o) && HasLocks(marks, o)
    }

    /** Address a is in a byte of the objects `done` that the commit copies. */
    ghost predicate IsCopied(marks: seq<nat>, done: seq<nat>, a: nat)
      requires layout.Valid() && AllMarksOk(marks, done) && a < |layout.owner|
    {
      layout.owner[a] in done && a in CopiedBytes(marks, layout.owner[a])
    }

    /** The same for the bytes that are copied. */
    ghost predicate PushedBytes(was: seq<seq<int>>, now: seq<seq<int>>, me: nat, done: seq<nat>, marks: seq<nat>)
      requires layout.Valid() && Fits(was) && Fits(now) && me < Count() && AllMarksOk(marks, done)
      reads bySegment
    {
      forall i, a :: 0 <= i < Count() && 0 <= a < |layout.owner| ==>
        now[i][a] == if IsCopied(marks, done, a) && (i == 0 || (i != me && Private(i, a))) then was[Copy(me, a)][a] else was[i][a]
    }

    lemma PushedFurther(was: seq<seq<int>>, mid: seq<seq<int>>, now: seq<seq<int>>, me: nat, done: seq<nat>, marks: seq<nat>, o: nat)
      requires Shape() && Fits(was) && Fits(mid) && Fits(now) && 0 < me < Count() && o < |layout.start| && o !in done
      requires AllMarksOk(marks, [o] + done) && AllMarksOk(marks, done) && CopiedBytes(marks, o) <= Range(layout.start[o], layout.start[o] + layout.size[o])
      requires PushedBytes(was, mid, me, done, marks) && SyncedOn(mid, now, me, CopiedBytes(marks, o))
      ensures PushedBytes(was, now, me, [o] + done, marks)
    {
      hide CopiedBytes, MarksOk, HasLocks;
      forall a: nat | a < |layout.owner| ensures IsCopied(marks, [o] + done, a) <==> a in CopiedBytes(marks, o) || IsCopied(marks, done, a) {
        if a in CopiedBytes(marks, o) { assert a in Range(layout.start[o], layout.start[o] + layout.size[o]); }
      }
    }

    ghost predicate AllAgree(was: seq<seq<int>>, marks: seq<nat>, me: nat, list: seq<nat>)
      requires layout.Valid() && Fits(was) && me < Count() && AllMarksOk(marks, list)
      reads bySegment
    {
      forall o :: o in list ==> AgreeBut(was, me, layout.start[o], layout.start[o] + layout.size[o], CopiedBytes(marks, o))
    }

    /** Copying parts was as good as copying all, exactly if the others agreed on
        the rest of every object. */
    lemma PartsAreEnough(was: seq<seq<int>>, now: seq<seq<int>>, me: nat, list: seq<nat>, marks: seq<nat>)
      requires Shape() && Fits(was) && Fits(now) && 0 < me < Count() && AllMarksOk(marks, list)
      requires PushedBytes(was, now, me, list, marks)
      ensures PushedObjects(was, now, me, list) <==> AllAgree(was, marks, me, list)
    {
      hide CopiedBytes, MarksOk, HasLocks;
      if AllAgree(was, marks, me, list) {
        forall i, a: nat | 0 <= i < Count() && a < |layout.owner|
          ensures now[i][a] == if layout.owner[a] in list && (i == 0 || (i != me && Private(i, a))) then was[Copy(me, a)][a] else was[i][a]
        {
          assert IsCopied(marks, list, a) <==> layout.owner[a] in list && a in CopiedBytes(marks, layout.owner[a]);
        }
      }
      if PushedObjects(was, now, me, list) {
        forall o | o in list ensures AgreeBut(was, me, layout.start[o], layout.start[o] + layout.size[o], CopiedBytes(marks, o)) {
          forall i, a: nat | 0 <= i < Count() && layout.start[o] <= a < layout.start[o] + layout.size[o] && a !in CopiedBytes(marks, o) && (i == 0 || (i != me && Private(i, a)))
            ensures was[i][a] == was[Copy(me, a)][a]
          {
            assert layout.owner[a] == o && !IsCopied(marks, list, a);
            assert now[i][a] == was[i][a];
          }
        }
      }
    }

    lemma ReleasedFurther(marks: seq<nat>, mid: seq<nat>, now: seq<nat>, done: seq<nat>, o: nat)
      requires Shape() && o < |layout.start| && o !in done && forall p :: p in done ==> p < |layout.start|
      requires |marks| == locks.Length && Released(marks, mid, done) && |now| == |mid|
      requires 0 <= OwnLock(o) < |now| && now[OwnLock(o)] == 0 && CardsClear(now, o)
      requires forall k :: 0 <= k < |now| && !Belongs(k, o) ==> now[k] == mid[k]
      ensures Released(marks, now, [o] + done)
    {
      LocksBelong(o);
      forall p | p in [o] + done ensures now[OwnLock(p)] == 0 && CardsClear(now, p) {
        LocksBelong(p);
        if p != o {
          assert forall k :: 0 <= k < |now| && Belongs(k, p) ==> now[k] == mid[k];
        }
      }
    }

    /** This object agrees with the value m except for bytes and locks, and except
        that the transaction of segment me has ended. */
    ghost predicate EndedIn(m: Memory, me: nat)
      requires Shape()
      reads this, bySegment, modified, version, markers
    {
      && WellFormed(m) && m.owner == layout.owner && m.objects == |layout.start| && |m.segs| == Count()
      && me < Count() && modified[me] == [] && logs[me] == []
      && forall i :: 0 <= i < Count() ==>
        && m.segs[i].private == PrivatePages(i) && m.segs[i].version == version[i] && m.segs[i].marked == marked[i]
        && (forall o :: 0 <= o < |layout.start| ==> m.segs[i].markers[o] == markers[i, o])
        && (i != me ==> m.segs[i].modified == modified[i] && m.segs[i].log == logs[i])
    }

    ghost predicate BytesOf(m: Memory, was: seq<seq<int>>) {
      |was| == |m.segs| && forall i :: 0 <= i < |was| ==> m.segs[i].bytes == was[i]
    }

    ghost predicate HeldIn(m: Memory, was: seq<seq<int>>, marks: seq<nat>)
      requires Shape()
      reads this, modified
    {
      && WellFormed(m) && m.owner == layout.owner && |was| == |m.segs| == Count() && m.objects == |layout.start|
      && BytesOf(m, was)
      && (forall o :: 0 <= o < m.objects ==> OwnLock(o) < |marks| && m.locks[o] == marks[OwnLock(o)])
    }

    lemma ValueHeld(m: Memory)
      requires Shape() && m == Value()
      ensures HeldIn(m, Copies(), locks[..])
    {
      forall o | 0 <= o < |layout.start| ensures OwnLock(o) < locks.Length && m.locks[o] == locks[OwnLock(o)] { LocksBelong(o); }
    }

    lemma MarksFit(list: seq<nat>)
      requires Shape() && forall o :: o in list ==> o < |layout.start| && MarksOk(locks[..], o)
      ensures AllMarksOk(locks[..], list)
    {
    }

    lemma ReleasedLocks(m: Memory, was: seq<seq<int>>, marks: seq<nat>, me: nat, list: seq<nat>)
      requires Shape() && HeldIn(m, was, marks) && me < Count() && m.segs[me].modified == list
      requires forall o :: o in list ==> o < |layout.start|
      requires Released(marks, locks[..], list)
      ensures Value().locks == Unlock(m, me)
    {
      forall o | 0 <= o < m.objects ensures LockOf(o) == if o in list then 0 else m.locks[o] {
        LocksBelong(o);
        assert locks[..][OwnLock(o)] == locks[OwnLock(o)];
      }
      assert Value().locks == Unlock(m, me);
    }

    lemma PushedValue(m: Memory, was: seq<seq<int>>, marks: seq<nat>, me: nat, list: seq<nat>)
      requires Shape() && 0 < me < Count() && HeldIn(m, was, marks) && EndedIn(m, me) && Fits(was)
      requires m.segs[me].modified == list && committed == m.committed + [m.segs[me].log]
      requires forall o :: o in list ==> o < |layout.start|
      requires AllMarksOk(marks, list) && PushedBytes(was, Copies(), me, list, marks) && Released(marks, locks[..], list)
      ensures Value() == Push(m, me) <==> AllAgree(was, marks, me, list)
      ensures Value() == Push(m, me).(segs := Value().segs)
    {
      hide PushedObjects, PushedBytes, AllAgree, Pushed, Unlock, WellFormed, View;
      ReleasedLocks(m, was, marks, me, list);
      PartsAreEnough(was, Copies(), me, list, marks);
      if PushedObjects(was, Copies(), me, list) { PushedAllValue(m, was, me, list); }
      if Value() == Push(m, me) { PushedAll(m, was, me, list); }
    }

    lemma PushedAll(m: Memory, was: seq<seq<int>>, me: nat, list: seq<nat>)
      requires Shape() && 0 < me < Count() && EndedIn(m, me) && Fits(was) && BytesOf(m, was)
      requires m.segs[me].modified == list && Value() == Push(m, me)
      ensures PushedObjects(was, Copies(), me, list)
    {
      forall i, a | 0 <= i < Count() && 0 <= a < |layout.owner|
        ensures Copies()[i][a] == if layout.owner[a] in list && (i == 0 || (i != me && Private(i, a))) then was[Copy(me, a)][a] else was[i][a]
      {
        assert Value().segs[i] == SegmentValue(i) && Push(m, me).segs[i] == Pushed(m, me, i);
        assert View(m, me, a) == was[Copy(me, a)][a];
      }
    }

    lemma PushedAllValue(m: Memory, was: seq<seq<int>>, me: nat, list: seq<nat>)
      requires Shape() && 0 < me < Count() && EndedIn(m, me) && Fits(was) && BytesOf(m, was)
      requires m.segs[me].modified == list && committed == m.committed + [m.segs[me].log]
      requires PushedObjects(was, Copies(), me, list) && Value().locks == Unlock(m, me)
      ensures Value() == Push(m, me)
    {
      var v, m' := Value(), Push(m, me);
      forall i | 0 <= i < Count() ensures v.segs[i] == m'.segs[i] {
        assert v.segs[i] == SegmentValue(i) && m'.segs[i] == Pushed(m, me, i);
        forall a | 0 <= a < |layout.owner| ensures v.segs[i].bytes[a] == m'.segs[i].bytes[a] {
          assert View(m, me, a) == was[Copy(me, a)][a];
        }
        assert v.segs[i].bytes == m'.segs[i].bytes;
        assert v.segs[i].markers == m.segs[i].markers;
      }
      assert v.segs == m'.segs;
    }

    /** push_modified_to_other_segments: pops the objects one by one, unlocks
        them and copies them, or their marked cards, to where others see them. */
    method PushModified(me: nat)
      requires Shape() && 0 < me < Count() && Unique(modified[me])
      requires forall o :: o in modified[me] ==> locks[OwnLock(o)] == me && MarksOk(locks[..], o)
      modifies this, pages, locks, modified
      ensures Shape()
      ensures Value() == Push(old(Value()), me) <==> old(forall o :: o in modified[me] ==> Honest(Copies(), locks[..], me, o))
      ensures Value() == Push(old(Value()), me).(segs := Value().segs)
      ensures AllMarksOk(old(locks[..]), old(modified[me]))
      ensures PushedBytes(old(Copies()), Copies(), me, old(modified[me]), old(locks[..]))
      ensures forall o :: o in old(modified[me]) ==> CardsClear(locks[..], o)
    {
      hide Push, View, ViewOf, Pushed, Unlock, PushedBytes, PushedObjects, CopiedBytes, MarksOk, CardsClear, IsCopied, BytesOf, AgreeBut;
      ghost var was, marks, m := Copies(), locks[..], Value();
      ValueHeld(m);
      var list := modified[me];
      MarksFit(list);
      PushAll(me, list, was, marks);
      modified[me] := [];
      committed := committed + [logs[me]];
      logs := logs[me := []];
      PushedValue(m, was, marks, me, list);
    }

    method PushAll(me: nat, list: seq<nat>, ghost was: seq<seq<int>>, ghost marks: seq<nat>)
      requires Shape() && 0 < me < Count() && Unique(list) && was == Copies() && marks == locks[..]
      requires AllMarksOk(marks, list) && forall o :: o in list ==> locks[OwnLock(o)] == me
      modifies pages, locks
      ensures Shape() && PushedBytes(was, Copies(), me, list, marks) && Released(marks, locks[..], list)
    {
      var k := |list|;
      assert list[k..] == [];
      while k > 0
        invariant 0 <= k <= |list| && AllMarksOk(marks, list[k..])
        invariant PushedBytes(was, Copies(), me, list[k..], marks) && Released(marks, locks[..], list[k..])
      {
        k := k - 1;
        assert list[k..] == [list[k]] + list[k + 1..];
        assert list[k] in list;
        PushOne(me, list[k], list[k + 1..], was, marks);
      }
      assert list[0..] == list;
    }

    method PushOne(me: nat, o: nat, ghost done: seq<nat>, ghost was: seq<seq<int>>, ghost marks: seq<nat>)
      requires Shape() && 0 < me < Count() && o < |layout.start| && o !in done
      requires AllMarksOk(marks, done) && MarksOk(marks, o) && HasLocks(marks, o)
      requires Fits(was) && |marks| == locks.Length && marks[OwnLock(o)] == me
      requires PushedBytes(was, Copies(), me, done, marks) && Released(marks, locks[..], done)
      modifies pages, locks
      ensures Shape() && AllMarksOk(marks, [o] + done)
      ensures PushedBytes(was, Copies(), me, [o] + done, marks) && Released(marks, locks[..], [o] + done)
    {
      LocksBelong(o);
      ghost var mid, midMarks := Copies(), locks[..];
      assert locks[OwnLock(o)] == me;
      locks[OwnLock(o)] := 0;
      SameCopied(marks, locks[..], o);
      CopiedWithin(marks, o);
      SynchronizeObject(me, o);
      PushedFurther(was, mid, Copies(), me, done, marks, o);
      ReleasedFurther(marks, midMarks, locks[..], done, o);
    }

    // ----- abort

    ghost predicate Fetched(me: nat, done: seq<nat>, i: nat, a: nat)
      requires layout.Valid() && |layout.owner| <= bySegment.Length * PAGE_SIZE && a < |layout.owner|
      reads bySegment
    {
      i == me && layout.owner[a] in done && Private(i, a)
    }

    ghost predicate PulledObjects(was: seq<seq<int>>, now: seq<seq<int>>, me: nat, done: seq<nat>)
      requires layout.Valid() && Fits(was) && Fits(now) && me < Count()
      reads bySegment
    {
      forall i, a :: 0 <= i < Count() && 0 <= a < |layout.owner| ==>
        now[i][a] == if Fetched(me, done, i, a) then was[0][a] else was[i][a]
    }

    /** reset_modified_from_other_segments: pops the objects one by one, fetches
        the committed version, clears the cards and unlocks them. */
    method ResetModified(me: nat)
      requires Shape() && 0 < me < Count() && Unique(modified[me])
      requires forall o :: o in modified[me] ==> locks[OwnLock(o)] == me
      modifies this, pages, locks, modified
      ensures Shape() && Value() == Reset(old(Value()), me) && modified[..] == old(modified[..])[me := []]
      ensures forall o :: o in old(modified[me]) ==> CardsClear(locks[..], o)
    {
      hide Reset, View, ViewOf, Unlock, AgreeBut, CopiedBytes, MarksOk, CardsClear;
      ghost var was, marks, m := Copies(), locks[..], Value();
      ValueHeld(m);
      var list := modified[me];
      ResetAll(me, list, was, marks);
      modified[me] := [];
      logs := logs[me := []];
      ResetValue(m, was, marks, me, list);
    }

    method ResetAll(me: nat, list: seq<nat>, ghost was: seq<seq<int>>, ghost marks: seq<nat>)
      requires Shape() && 0 < me < Count() && Unique(list) && was == Copies() && marks == locks[..]
      requires forall o :: o in list ==> o < |layout.start| && locks[OwnLock(o)] == me
      modifies pages, locks
      ensures Shape() && PulledObjects(was, Copies(), me, list) && Released(marks, locks[..], list)
    {
      var k := |list|;
      assert list[k..] == [];
      while k > 0
        invariant 0 <= k <= |list| && forall o :: o in list[k..] ==> o in list
        invariant PulledObjects(was, Copies(), me, list[k..]) && Released(marks, locks[..], list[k..])
      {
        k := k - 1;
        assert list[k..] == [list[k]] + list[k + 1..] && list[k] in list;
        ResetOne(me, list[k], list[k + 1..], was, marks);
      }
      assert list[0..] == list;
    }

    method ResetOne(me: nat, o: nat, ghost done: seq<nat>, ghost was: seq<seq<int>>, ghost marks: seq<nat>)
      requires Shape() && 0 < me < Count() && o < |layout.start| && o !in done && forall p :: p in done ==> p < |layout.start|
      requires Fits(was) && |marks| == locks.Length && marks[OwnLock(o)] == me
      requires PulledObjects(was, Copies(), me, done) && Released(marks, locks[..], done)
      modifies pages, locks
      ensures Shape() && PulledObjects(was, Copies(), me, [o] + done) && Released(marks, locks[..], [o] + done)
    {
      LocksBelong(o);
      ghost var mid, midMarks := Copies(), locks[..];
      CopyBytes(me, 0, layout.start[o], layout.size[o]);
      PulledFurther(was, mid, Copies(), me, done, o);
      if UsesCards(o) {
        CardLocksExist(o, layout.base[o], layout.item[o]);
        ClearCards(o, LastCard(o, layout.base[o], layout.item[o]));
        ClearedCards(midMarks, o);
      }
      assert locks[OwnLock(o)] == me;
      locks[OwnLock(o)] := 0;
      ReleasedFurther(marks, midMarks, locks[..], done, o);
    }

    lemma PulledFurther(was: seq<seq<int>>, mid: seq<seq<int>>, now: seq<seq<int>>, me: nat, done: seq<nat>, o: nat)
      requires Shape() && Fits(was) && Fits(mid) && Fits(now) && 0 < me < Count() && o < |layout.start| && o !in done
      requires PulledObjects(was, mid, me, done)
      requires forall i, a :: 0 <= i < Count() && 0 <= a < |layout.owner| ==>
        now[i][a] == if layout.start[o] <= a < layout.start[o] + layout.size[o] && i == Copy(me, a) then mid[0][a] else mid[i][a]
      ensures PulledObjects(was, now, me, [o] + done)
    {
      forall i, a | 0 <= i < Count() && 0 <= a < |layout.owner|
        ensures now[i][a] == if Fetched(me, [o] + done, i, a) then was[0][a] else was[i][a]
      {
        assert layout.owner[a] in [o] + done <==> layout.owner[a] == o || layout.owner[a] in done;
        assert mid[i][a] == if Fetched(me, done, i, a) then was[0][a] else was[i][a];
        assert mid[0][a] == was[0][a] by { assert !Fetched(me, done, 0, a); }
      }
    }

    lemma ResetValue(m: Memory, was: seq<seq<int>>, marks: seq<nat>, me: nat, list: seq<nat>)
      requires Shape() && 0 < me < Count() && HeldIn(m, was, marks) && EndedIn(m, me) && Fits(was)
      requires m.segs[me].modified == list && committed == m.committed
      requires forall o :: o in list ==> o < |layout.start|
      requires PulledObjects(was, Copies(), me, list) && Released(marks, locks[..], list)
      ensures Value() == Reset(m, me)
    {
      var v, m', now := Value(), Reset(m, me), Copies();
      ReleasedLocks(m, was, marks, me, list);
      forall i | 0 <= i < Count() ensures v.segs[i] == m'.segs[i] {
        assert v.segs[i] == SegmentValue(i);
        forall a | 0 <= a < |layout.owner| ensures now[i][a] == m'.segs[i].bytes[a] {
          assert Fetched(me, list, i, a) <==> i == me && layout.owner[a] in m.segs[me].modified && Page(a) in m.segs[me].private;
          assert m.segs[0].bytes == was[0] && m.segs[i].bytes == was[i];
        }
        assert SegmentValue(i).bytes == now[i];
        assert v.segs[i].bytes == m'.segs[i].bytes;
        assert v.segs[i].markers == m.segs[i].markers;
      }
      assert v.segs == m'.segs;
    }

    // ----- starting

    /** The end of _stm_start_transaction: a new read version, which fits in one
        byte; when it wraps around, all read markers are wiped. */
    method NextVersion(me: nat)
      requires Shape() && 0 < me < Count() && version[me] <= MAX_VERSION
      modifies this, version, markers
      ensures Shape() && Value() == NewVersion(old(Value()), me)
    {
      hide NewVersion;
      ghost var m := Value();
      var oldVersion := version[me];
      version[me] := (oldVersion + 1) % 256;
      if oldVersion == MAX_VERSION {
        WipeMarkers(me);
        version[me] := 1;
      }
      marked := marked[me := {}];
      VersionValue(m, me);
    }

    method WipeMarkers(me: nat)
      requires me < markers.Length0
      modifies markers
      ensures forall i, o :: 0 <= i < markers.Length0 && 0 <= o < markers.Length1 ==>
        markers[i, o] == if i == me then 0 else old(markers[i, o])
    {
      var o := 0;
      while o < markers.Length1
        invariant o <= markers.Length1
        invariant forall i, p :: 0 <= i < markers.Length0 && 0 <= p < markers.Length1 ==>
          markers[i, p] == if i == me && p < o then 0 else old(markers[i, p])
      {
        markers[me, o] := 0;
        o := o + 1;
      }
    }

    lemma VersionValue(m: Memory, me: nat)
      requires Shape() && 0 < me < Count() && WellFormed(m) && m.owner == layout.owner && m.objects == |layout.start|
      requires |m.segs| == Count() && m.committed == committed && m.locks == Value().locks
      requires forall i :: 0 <= i < Count() ==>
        && m.segs[i].bytes == Copies()[i] && m.segs[i].private == PrivatePages(i)
        && m.segs[i].modified == modified[i] && m.segs[i].log == logs[i] && marked[i] == (if i == me then {} else m.segs[i].marked)
      requires version[me] == if m.segs[me].version == MAX_VERSION then 1 else m.segs[me].version + 1
      requires forall i :: 0 <= i < Count() && i != me ==> version[i] == m.segs[i].version
      requires forall i, o :: 0 <= i < Count() && 0 <= o < m.objects ==>
        markers[i, o] == if i == me && m.segs[me].version == MAX_VERSION then 0 else m.segs[i].markers[o]
      ensures Value() == NewVersion(m, me)
    {
      var v, m' := Value(), NewVersion(m, me);
      forall i | 0 <= i < Count() ensures v.segs[i] == m'.segs[i] {
        assert v.segs[i] == SegmentValue(i);
        assert v.segs[i].markers == m'.segs[i].markers;
      }
      assert v.segs == m'.segs;
    }

    // ----- conflicts

    /** detect_write_read_conflicts: whether some other running transaction read
        an object that segment me wants to commit; if so, the first such segment. */
    method DetectConflict(me: nat, running: seq<bool>) returns (other: nat)
      requires Shape() && 0 < me < Count() && |running| == Count()
      ensures other == 0 ==> forall i, o :: 0 < i < Count() && i != me && running[i] && o in modified[me] ==> markers[i, o] != version[i]
      ensures other != 0 ==>
        (other < Count() && other != me && running[other]
         && exists o :: o in modified[me] && markers[other, o] == version[other])
    {
      var i := 1;
      while i < modified.Length
        invariant 1 <= i <= Count()
        invariant forall j, o :: 0 < j < i && j != me && running[j] && o in modified[me] ==> markers[j, o] != version[j]
      {
        if i != me && running[i] {
          var k := |modified[me]|;
          while k > 0
            invariant 0 <= k <= |modified[me]|
            invariant forall o :: o in modified[me][k..] ==> markers[i, o] != version[i]
          {
            k := k - 1;
            assert modified[me][k..] == [modified[me][k]] + modified[me][k + 1..];
            if markers[i, modified[me][k]] == version[i] {
              return i;
            }
          }
        }
        i := i + 1;
      }
      return 0;
    }

    // ----- privatizing pages

    /** The part of total_allocated that is not private pages. */
    ghost function Elsewhere(): int
      reads bySegment, ctl
    {
      ctl.totalAllocated - PAGE_SIZE * PrivateTotal(bySegment[..])
    }

    /** page_privatize */
    method PagePrivatize(me: nat, page: nat)
      requires Shape() && 0 < me < Count() && page < bySegment.Length
      modifies bySegment, pages, ctl
      ensures Shape() && Value() == Privatize(old(Value()), me, page)
      ensures bySegment[..] == old(bySegment[..])[page := old(bySegment[page]) + {me}]
      ensures Elsewhere() == old(Elsewhere())
    {
      hide Privatize;
      ghost var m, bits := Value(), bySegment[..];
      ValueHolds(m);
      if me in bySegment[page] {
        assert bits[page] + {me} == bits[page];
        PrivatizedAlready(m, me, page);
        return;
      }
      bySegment[page] := bySegment[page] + {me};
      ctl.Increment(PAGE_SIZE);
      TotalUpdate(bits, page, bySegment[page]);
      CopyPage(me, page);
      PrivatizedIs(m, bits, me, page);
    }

    lemma PrivatizedAlready(m: Memory, me: nat, page: nat)
      requires WellFormed(m) && 0 < me < |m.segs| && page in m.segs[me].private
      ensures Privatize(m, me, page) == m
    {
    }

    lemma PrivatizedIs(m: Memory, bits: seq<set<nat>>, me: nat, page: nat)
      requires Shape() && WellFormed(m) && 0 < me < Count() && m.owner == layout.owner && m.objects == |layout.start| && |m.segs| == Count()
      requires m.committed == committed && m.locks == Value().locks
      requires page < |bits| == bySegment.Length && me !in bits[page] && bySegment[..] == bits[page := bits[page] + {me}]
      requires forall i :: 0 <= i < Count() ==>
        && m.segs[i].private == (set p | 0 <= p < |bits| && i in bits[p]) && m.segs[i].version == version[i]
        && m.segs[i].modified == modified[i] && m.segs[i].log == logs[i] && m.segs[i].marked == marked[i]
      requires forall i, o :: 0 <= i < Count() && 0 <= o < m.objects ==> markers[i, o] == m.segs[i].markers[o]
      requires forall i, a :: 0 <= i < Count() && 0 <= a < |layout.owner| ==>
        pages[i, a] == if i == me && Page(a) == page then m.segs[0].bytes[a] else m.segs[i].bytes[a]
      ensures Value() == Privatize(m, me, page)
    {
      forall i | 0 <= i < Count() ensures PrivatePages(i) == if i == me then m.segs[i].private + {page} else m.segs[i].private {}
      ValueIs(Privatize(m, me, page));
    }

    /** pagecopy, from the shared page to the new private one */
    method CopyPage(me: nat, page: nat)
      requires Shape() && 0 < me < Count()
      modifies pages
      ensures forall i, a :: 0 <= i < Count() && 0 <= a < |layout.owner| ==>
        pages[i, a] == old(if i == me && Page(a) == page then pages[0, a] else pages[i, a])
    {
      var a := page * PAGE_SIZE;
      while a < (page + 1) * PAGE_SIZE && a < pages.Length1
        invariant page * PAGE_SIZE <= a <= (page + 1) * PAGE_SIZE
        invariant forall i, b :: 0 <= i < Count() && 0 <= b < |layout.owner| ==>
          pages[i, b] == old(if i == me && Page(b) == page && b < a then pages[0, b] else pages[i, b])
      {
        pages[me, a] := pages[0, a];
        a := a + 1;
      }
    }

    /** A state in which nothing happened yet. */
    lemma Quiet()
      requires Shape() && committed == []
      requires forall i :: 0 <= i < Count() ==> modified[i] == [] && version[i] == MAX_VERSION && marked[i] == {} && logs[i] == []
      requires forall i, a :: 0 <= i < Count() && 0 <= a < |layout.owner| ==> pages[i, a] == 0
      requires forall i, o :: 0 <= i < Count() && 0 <= o < |layout.start| ==> markers[i, o] == 0
      requires forall k :: 0 <= k < locks.Length ==> locks[k] == 0
      ensures Coherent(Value())
    {
      var m := Value();
      ValueHolds(m);
      forall i | 0 < i < Count() ensures ViewOf(m, i) == Shared(m) {
        assert Holds(m, i) && Holds(m, 0);
        forall a | 0 <= a < |layout.owner| ensures View(m, i, a) == Shared(m)[a] {}
      }
    }

    /** The value of this object, component by component. */
    ghost predicate Holds(m: Memory, i: nat)
      requires Shape()
      reads this, bySegment, modified, version, pages, markers
    {
      && i < |m.segs| == Count() && m.owner == layout.owner
      && var s := m.segs[i];
      && |s.bytes| == |layout.owner| && (forall a :: 0 <= a < |layout.owner| ==> s.bytes[a] == pages[i, a])
      && |s.markers| == |layout.start| && (forall o :: 0 <= o < |layout.start| ==> s.markers[o] == markers[i, o])
      && s.private == PrivatePages(i) && s.version == version[i] && s.modified == modified[i]
      && s.marked == marked[i] && s.log == logs[i]
    }

    lemma ValueIs(m: Memory)
      requires Shape() && m.owner == layout.owner && m.objects == |m.locks| == |layout.start| && |m.segs| == Count()
      requires m.committed == committed && forall o :: 0 <= o < |m.locks| ==> m.locks[o] == LockOf(o)
      requires forall i :: 0 <= i < Count() ==> Holds(m, i)
      ensures Value() == m
    {
      var v := Value();
      assert v.locks == m.locks;
      forall i | 0 <= i < Count() ensures v.segs[i] == m.segs[i] {
        assert Holds(m, i);
        assert v.segs[i] == SegmentValue(i);
        assert v.segs[i].bytes == m.segs[i].bytes;
        assert v.segs[i].markers == m.segs[i].markers;
      }
      assert v.segs == m.segs;
    }

    lemma ValueSized(m: Memory)
      requires Shape() && m == Value()
      ensures WellFormed(m) && |m.segs| == Count()
    {
    }

    lemma ValueHolds(m: Memory)
      requires Shape() && m == Value()
      ensures WellFormed(m) && forall i :: 0 <= i < Count() ==> Holds(m, i)
    {
      forall i | 0 <= i < Count() ensures Holds(m, i) {
        assert m.segs[i] == SegmentValue(i);
      }
    }

    // ----- the write barrier

    /** stm_read */
    method ReadBarrier(me: nat, o: nat)
      requires Shape() && 0 < me < Count() && o < |layout.start|
      modifies this, markers
      ensures Shape() && Value() == MarkRead(old(Value()), me, o)
      ensures logs == old(logs) && committed == old(committed)
    {
      ghost var m := Value();
      ValueHolds(m);
      markers[me, o] := version[me];
      marked := marked[me := marked[me] + {o}];
      ValueIs(MarkRead(m, me, o));
    }

    method ClaimLock(me: nat, o: nat)
      requires Shape() && 0 < me < Count() && o < |layout.start| && locks[OwnLock(o)] == 0
      modifies locks, modified
      ensures Shape() && modified[..] == old(modified[..])[me := old(modified[me]) + [o]]
      ensures Value() == old(Value()).(locks := old(Value()).locks[o := me],
        segs := old(Value()).segs[me := old(Value()).segs[me].(modified := old(modified[me]) + [o])])
    {
      ghost var m := Value();
      ValueHolds(m);
      LocksBelong(o);
      locks[OwnLock(o)] := me;
      modified[me] := modified[me] + [o];
      forall p | 0 <= p < |layout.start| ensures LockOf(p) == if p == o then me else old(LockOf(p)) { LocksBelong(p); }
      ValueIs(m.(locks := m.locks[o := me], segs := m.segs[me := m.segs[me].(modified := modified[me])]));
    }

    function LastPage(o: nat): (p: nat)
      requires layout.Valid() && o < |layout.start|
      ensures Page(layout.start[o]) <= p
    {
      Page(layout.start[o] + layout.size[o] - 1)
    }

    method PrivatizePages(me: nat, first: nat, end: nat)
      requires Shape() && 0 < me < Count() && first <= end <= bySegment.Length
      modifies bySegment, pages, ctl
      ensures Shape() && Elsewhere() == old(Elsewhere())
      ensures Value() == PrivatizeRange(old(Value()), me, first, end)
      ensures forall p :: 0 <= p < bySegment.Length ==> bySegment[p] == old(bySegment[p]) + if first <= p < end then {me} else {}
    {
      hide Privatize, Shape, Value, Elsewhere, PrivateTotal;
      ghost var m, bits := Value(), bySegment[..];
      ValueSized(m);
      var page := first;
      while page < end
        invariant Shape() && first <= page <= end && Elsewhere() == old(Elsewhere())
        invariant WellFormed(m) && |m.segs| == Count() && Value() == PrivatizeRange(m, me, first, page)
        invariant forall p :: 0 <= p < bySegment.Length ==> bySegment[p] == bits[p] + if first <= p < page then {me} else {}
      {
        PagePrivatize(me, page);
        page := page + 1;
      }
    }

    /** The slow path of the write barrier, when nobody has the object: mark it
        as read, take its lock, list it and privatize its pages. */
    method WriteLock(me: nat, o: nat) returns (taken: bool)
      requires Shape() && 0 < me < Count() && o < |layout.start|
      modifies this, bySegment, pages, ctl, locks, modified, markers
      ensures Shape() && Elsewhere() == old(Elsewhere())
      ensures taken <==> old(locks[OwnLock(o)]) == 0
      ensures taken ==> Value() == PrivatizeRange(TakeLock(old(Value()), me, o), me, Page(layout.start[o]), LastPage(o) + 1)
      ensures !taken ==> Value() == MarkRead(old(Value()), me, o)
      ensures modified[..] == if taken then old(modified[..])[me := old(modified[me]) + [o]] else old(modified[..])
      ensures forall p :: 0 <= p < bySegment.Length ==>
        bySegment[p] == old(bySegment[p]) + if taken && Page(layout.start[o]) <= p <= LastPage(o) then {me} else {}
    {
      hide Privatize, PrivatizeRange;
      LocksBelong(o);
      ReadBarrier(me, o);
      taken := locks[OwnLock(o)] == 0;
      if taken {
        ClaimLock(me, o);
        PrivatizePages(me, Page(layout.start[o]), LastPage(o) + 1);
      }
    }

    // ----- the write barrier keeps the invariants

    lemma {:induction false} RangeKeeps(m: Memory, me: nat, first: nat, end: nat)
      requires Coherent(m) && 0 < me < |m.segs| && first <= end
      ensures Coherent(PrivatizeRange(m, me, first, end))
      decreases end - first
    {
      hide ViewsAgree, LocksMatch, MarkersExact, AccessesMarked, LogsReplay, Privatize;
      if first < end {
        RangeKeeps(m, me, first, end - 1);
        PrivatizeKeeps(PrivatizeRange(m, me, first, end - 1), me, end - 1);
      }
    }

    /** What WriteLock is going to do keeps the invariant of module Views. */
    lemma WriteKeeps(m: Memory, me: nat, o: nat)
      requires Shape() && m == Value() && Coherent(m) && 0 < me < Count() && o < |layout.start|
      ensures WellFormed(m) && me < |m.segs| && o < m.objects && Coherent(MarkRead(m, me, o))
      ensures OwnLock(o) < locks.Length
      ensures locks[OwnLock(o)] == 0 ==> WellFormed(TakeLock(m, me, o))
      ensures locks[OwnLock(o)] == 0 ==> Coherent(PrivatizeRange(TakeLock(m, me, o), me, Page(layout.start[o]), LastPage(o) + 1))
    {
      LocksBelong(o);
      MarkReadKeeps(m, me, o);
      assert m.locks[o] == LockOf(o);
      if m.locks[o] == 0 {
        TakeLockKeeps(m, me, o);
        RangeKeeps(TakeLock(m, me, o), me, Page(layout.start[o]), LastPage(o) + 1);
      }
    }

    // ----- sharing pages again

    ghost predicate Listed()
      reads modified
    {
      && layout.Valid() && Count() == modified.Length
      && (forall i, k :: 0 <= i < Count() && 0 <= k < |modified[i]| ==> modified[i][k] < |layout.start|)
    }

    /** Page p holds a part of an object that segment i is modifying; only the
        objects from the k-th on count. */
    ghost predicate Covers(i: nat, k: nat, p: nat)
      requires Listed() && i < Count()
      reads modified
    {
      exists j :: k <= j < |modified[i]| && Page(layout.start[modified[i][j]]) <= p <= LastPage(modified[i][j])
    }

    ghost function Covering(k: nat, i: nat, p: nat): set<nat>
      requires Listed() && k <= i <= Count()
      reads modified
    {
      set j | k <= j < i && Covers(j, 0, p)
    }

    /** Every private page bit belongs to one of the segments 1 to N. */
    ghost predicate BitsValid()
      reads this, bySegment
    {
      forall p, j :: 0 <= p < bySegment.Length && j in bySegment[p] ==> 0 < j < Count()
    }

    /** The pages of what a segment is modifying are private to it. */
    ghost predicate ModifiedArePrivate()
      requires Listed()
      reads modified, bySegment
    {
      forall i, p :: 0 < i < Count() && 0 <= p < bySegment.Length && Covers(i, 0, p) ==> i in bySegment[p]
    }

    /** The same for given bits and lists. */
    ghost predicate PrivateFor(bits: seq<set<nat>>, lists: seq<seq<nat>>)
      requires layout.Valid()
    {
      forall i, k, p {:trigger lists[i][k], bits[p]} :: 0 < i < |lists| && 0 <= k < |lists[i]| && 0 <= p < |bits| ==>
        (lists[i][k] < |layout.start| && Page(layout.start[lists[i][k]]) <= p <= LastPage(lists[i][k]) ==> i in bits[p])
    }

    lemma AsPrivateFor()
      requires Shape()
      ensures ModifiedArePrivate() <==> PrivateFor(bySegment[..], modified[..])
    {
      if PrivateFor(bySegment[..], modified[..]) {
        forall i, p | 0 < i < Count() && 0 <= p < bySegment.Length && Covers(i, 0, p) ensures i in bySegment[p] {
          var k :| 0 <= k < |modified[i]| && Page(layout.start[modified[i][k]]) <= p <= LastPage(modified[i][k]);
          assert modified[..][i][k] == modified[i][k] && bySegment[..][p] == bySegment[p];
        }
      }
    }

    lemma PrivateForMore(bits: seq<set<nat>>, lists: seq<seq<nat>>, bits': seq<set<nat>>, lists': seq<seq<nat>>, me: nat, o: nat, taken: bool)
      requires layout.Valid() && PrivateFor(bits, lists) && |bits| == |bits'| && me < |lists| && o < |layout.start|
      requires lists' == if taken then lists[me := lists[me] + [o]] else lists
      requires forall p :: 0 <= p < |bits| ==> bits'[p] == bits[p] + if taken && Page(layout.start[o]) <= p <= LastPage(o) then {me} else {}
      ensures PrivateFor(bits', lists')
    {
    }

    ghost predicate Bounded(bits: seq<set<nat>>) { forall p, j :: 0 <= p < |bits| && j in bits[p] ==> 0 < j < Count() }

    lemma AsBounded()
      ensures BitsValid() <==> Bounded(bySegment[..])
    {
      if Bounded(bySegment[..]) {
        forall p, j | 0 <= p < bySegment.Length && j in bySegment[p] ensures 0 < j < Count() { assert j in bySegment[..][p]; }
      }
    }

    /** The bits and lists before WriteLock, and after. */
    lemma StillPrivate(bits: seq<set<nat>>, lists: seq<seq<nat>>, me: nat, o: nat, taken: bool)
      requires Shape() && 0 < me < Count() && o < |layout.start| && |bits| == bySegment.Length && |lists| == Count()
      requires PrivateFor(bits, lists) && Bounded(bits)
      requires modified[..] == if taken then lists[me := lists[me] + [o]] else lists
      requires forall p :: 0 <= p < bySegment.Length ==>
        bySegment[p] == bits[p] + if taken && Page(layout.start[o]) <= p <= LastPage(o) then {me} else {}
      ensures BitsValid() && ModifiedArePrivate()
    {
      PrivateForMore(bits, lists, bySegment[..], modified[..], me, o, taken);
      AsPrivateFor();
      AsBounded();
    }

    /** BITOP: takes segment i out of, or puts it back into, the bits of the
        pages of everything it is modifying. */
    method SetPrivateBits(i: nat, on: bool)
      requires Shape() && 0 < i < Count()
      modifies bySegment
      ensures Shape() && forall p :: 0 <= p < bySegment.Length ==>
        bySegment[p] == if Covers(i, 0, p) then (if on then old(bySegment[p]) + {i} else old(bySegment[p]) - {i}) else old(bySegment[p])
    {
      var k := |modified[i]|;
      while k > 0
        invariant 0 <= k <= |modified[i]|
        invariant forall p :: 0 <= p < bySegment.Length ==>
          bySegment[p] == if Covers(i, k, p) then (if on then old(bySegment[p]) + {i} else old(bySegment[p]) - {i}) else old(bySegment[p])
      {
        k := k - 1;
        var o := modified[i][k];
        assert forall p: nat :: Covers(i, k, p) <==> Page(layout.start[o]) <= p <= LastPage(o) || Covers(i, k + 1, p);
        SetRange(i, Page(layout.start[o]), LastPage(o), on);
      }
    }

    method SetRange(i: nat, first: nat, last: nat, on: bool)
      requires first <= last < bySegment.Length
      modifies bySegment
      ensures forall p :: 0 <= p < bySegment.Length ==>
        bySegment[p] == if first <= p <= last then (if on then old(bySegment[p]) + {i} else old(bySegment[p]) - {i}) else old(bySegment[p])
    {
      var p := first;
      while p <= last
        invariant first <= p <= last + 1
        invariant forall q :: 0 <= q < bySegment.Length ==>
          bySegment[q] == if first <= q < p then (if on then old(bySegment[q]) + {i} else old(bySegment[q]) - {i}) else old(bySegment[q])
      {
        bySegment[p] := if on then bySegment[p] + {i} else bySegment[p] - {i};
        p := p + 1;
      }
    }

    /** page_reshare */
    method PageReshare(page: nat)
      requires Shape() && BitsValid() && page < bySegment.Length
      modifies ctl, bySegment
      ensures Elsewhere() == old(Elsewhere()) && bySegment[..] == old(bySegment[..])[page := {}]
    {
      ghost var all := bySegment[..];
      var bits := bySegment[page];
      bySegment[page] := {};
      TotalUpdate(all, page, {});
      var total := 0;
      var j := 1;
      ghost var seen := {};
      while j < modified.Length
        invariant 1 <= j <= Count() && seen == (set i | i in bits && i < j) && total == PAGE_SIZE * |seen|
      {
        if j in bits {
          total := total + PAGE_SIZE;
          seen := seen + {j};
        }
        j := j + 1;
      }
      assert seen == bits;
      ctl.Increment(-total);
    }

    /** major_reshare_pages */
    method MajorReshare()
      requires Shape() && BitsValid() && ModifiedArePrivate()
      modifies ctl, bySegment
      ensures Shape() && BitsValid() && ModifiedArePrivate()
      ensures Value() == Reshare(old(Value())) && Elsewhere() == old(Elsewhere())
    {
      ghost var m, was := Value(), bySegment[..];
      ValueHolds(m);
      assert forall i :: 0 <= i < Count() ==> m.segs[i].private == set p | 0 <= p < |was| && i in was[p];
      ShareUnmodified();
      forall i | 0 <= i < Count() ensures HoldsBut(m, i, was) {}
      ReshareValue(m, was);
    }

    /** Hides the bits of what is being modified, shares all other pages again,
        and restores the hidden bits. */
    method ShareUnmodified()
      requires Shape() && BitsValid() && ModifiedArePrivate()
      modifies ctl, bySegment
      ensures Shape() && BitsValid() && ModifiedArePrivate() && Elsewhere() == old(Elsewhere())
      ensures forall p :: 0 <= p < bySegment.Length ==> bySegment[p] == Covering(1, Count(), p)
    {
      hide BitsValid, ModifiedArePrivate, Covers, Covering, PrivateTotal;
      ghost var was := bySegment[..];
      BitsExplained();
      HideBits();
      HiddenValid(was);
      ghost var hidden := bySegment[..];
      ShareAll();
      RestoreBits();
      RestoredBits(was, hidden, bySegment[..]);
      CoveringIsRight();
    }

    lemma BitsExplained()
      requires Shape() && BitsValid() && ModifiedArePrivate()
      ensures forall p, j :: 0 <= p < bySegment.Length && j in bySegment[p] ==> 0 < j < Count()
      ensures forall i, p :: 0 < i < Count() && 0 <= p < bySegment.Length && Covers(i, 0, p) ==> i in bySegment[p]
    {
    }

    lemma HiddenValid(was: seq<set<nat>>)
      requires Shape() && |was| == bySegment.Length
      requires forall p, j :: 0 <= p < |was| && j in was[p] ==> 0 < j < Count()
      requires forall p :: 0 <= p < bySegment.Length ==> bySegment[p] == was[p] - Covering(1, Count(), p)
      ensures BitsValid()
    {
    }

    lemma CoveringIsRight()
      requires Shape() && forall p :: 0 <= p < bySegment.Length ==> bySegment[p] == Covering(1, Count(), p)
      ensures BitsValid() && ModifiedArePrivate()
    {
    }

    /** The loop over all pages that are still listed as private somewhere. */
    method ShareAll()
      requires Shape() && BitsValid()
      modifies ctl, bySegment
      ensures forall p :: 0 <= p < bySegment.Length ==> bySegment[p] == {}
      ensures ctl.totalAllocated == old(ctl.totalAllocated) - PAGE_SIZE * PrivateTotal(old(bySegment[..]))
    {
      var p := 0;
      while p < bySegment.Length
        invariant p <= bySegment.Length && BitsValid() && Elsewhere() == old(Elsewhere())
        invariant forall q :: 0 <= q < p ==> bySegment[q] == {}
      {
        if bySegment[p] != {} {
          PageReshare(p);
        }
        p := p + 1;
      }
      EmptyTotal(bySegment[..]);
    }

    lemma RestoredBits(was: seq<set<nat>>, hidden: seq<set<nat>>, now: seq<set<nat>>)
      requires Shape() && |was| == |hidden| == |now| == bySegment.Length
      requires forall p :: 0 <= p < |was| ==> hidden[p] == was[p] - Covering(1, Count(), p) && now[p] == Covering(1, Count(), p)
      requires forall p, j :: 0 <= p < |was| && j in was[p] ==> 0 < j < Count()
      requires forall i, p :: 0 < i < Count() && 0 <= p < |was| && Covers(i, 0, p) ==> i in was[p]
      ensures forall p :: 0 <= p < |was| ==> now[p] <= was[p]
      ensures PrivateTotal(was) == PrivateTotal(hidden) + PrivateTotal(now)
    {
      forall p | 0 <= p < |was| ensures hidden[p] + now[p] == was[p] && hidden[p] !! now[p] {}
      SplitTotal(was, hidden, now);
    }

    /** The value m is right except for the private pages, which were `was`. */
    ghost predicate HoldsBut(m: Memory, i: nat, was: seq<set<nat>>)
      requires Shape()
      reads this, bySegment, modified, version, pages, markers
    {
      && i < |m.segs| == Count() && |was| == bySegment.Length
      && m.segs[i].private == (set p | 0 <= p < |was| && i in was[p])
      && Holds(m.(segs := m.segs[i := m.segs[i].(private := PrivatePages(i))]), i)
    }

    lemma ReshareValue(m: Memory, was: seq<set<nat>>)
      requires Shape() && WellFormed(m) && m.owner == layout.owner && m.objects == |layout.start| && |m.segs| == Count()
      requires m.committed == committed && forall o :: 0 <= o < |m.locks| ==> m.locks[o] == LockOf(o)
      requires forall i :: 0 <= i < Count() ==> HoldsBut(m, i, was)
      requires |was| == bySegment.Length && forall p :: 0 <= p < |was| ==> bySegment[p] == Covering(1, Count(), p)
      requires forall p, j :: 0 <= p < |was| && j in was[p] ==> 0 < j < Count()
      requires forall i, p :: 0 < i < Count() && 0 <= p < |was| && Covers(i, 0, p) ==> i in was[p]
      ensures Value() == Reshare(m)
    {
      forall i | 0 <= i < Count() ensures Holds(Reshare(m), i) {
        assert HoldsBut(m, i, was);
        ResharedPages(m, i, was);
      }
      ValueIs(Reshare(m));
    }

    /** The pages that stay private are those that hold something modified. */
    lemma ResharedPages(m: Memory, i: nat, was: seq<set<nat>>)
      requires Shape() && WellFormed(m) && m.owner == layout.owner && |m.segs| == Count() && i < Count()
      requires HoldsBut(m, i, was)
      requires forall p :: 0 <= p < |was| ==> bySegment[p] == Covering(1, Count(), p)
      requires forall p, j :: 0 <= p < |was| && j in was[p] ==> 0 < j < Count()
      requires forall p :: 0 <= p < |was| && 0 < i && Covers(i, 0, p) ==> i in was[p]
      ensures Holds(Reshare(m), i)
    {
      forall p: nat ensures p in PrivatePages(i) <==> p in Reshare(m).segs[i].private {
        if p < bySegment.Length { CoversHolds(m, i, p); }
      }
      assert PrivatePages(i) == Reshare(m).segs[i].private;
    }

    lemma CoversHolds(m: Memory, i: nat, p: nat)
      requires Shape() && WellFormed(m) && m.owner == layout.owner && i < |m.segs| == Count() && m.segs[i].modified == modified[i]
      ensures Covers(i, 0, p) <==> HoldsModified(m, i, p)
    {
      if Covers(i, 0, p) {
        var j :| 0 <= j < |modified[i]| && Page(layout.start[modified[i][j]]) <= p <= LastPage(modified[i][j]);
        var start, end := layout.start[modified[i][j]], layout.start[modified[i][j]] + layout.size[modified[i][j]];
        var a := if start < p * PAGE_SIZE then p * PAGE_SIZE else start;
        assert Page(a) == p && start <= a < end;
        assert m.owner[a] == modified[i][j];
      }
      if HoldsModified(m, i, p) {
        var a :| 0 <= a < |m.owner| && Page(a) == p && m.owner[a] in modified[i];
        var j :| 0 <= j < |modified[i]| && modified[i][j] == m.owner[a];
        assert Page(layout.start[modified[i][j]]) <= p <= LastPage(modified[i][j]);
      }
    }

    method HideBits()
      requires Shape()
      modifies bySegment
      ensures forall p :: 0 <= p < bySegment.Length ==> bySegment[p] == old(bySegment[p]) - Covering(1, Count(), p)
    {
      var i := 1;
      while i < modified.Length
        invariant Shape() && 1 <= i <= Count()
        invariant forall p :: 0 <= p < bySegment.Length ==> bySegment[p] == old(bySegment[p]) - Covering(1, i, p)
      {
        SetPrivateBits(i, false);
        i := i + 1;
      }
    }

    method RestoreBits()
      requires Shape()
      modifies bySegment
      ensures forall p :: 0 <= p < bySegment.Length ==> bySegment[p] == old(bySegment[p]) + Covering(1, Count(), p)
    {
      var i := 1;
      while i < modified.Length
        invariant Shape() && 1 <= i <= Count()
        invariant forall p :: 0 <= p < bySegment.Length ==> bySegment[p] == old(bySegment[p]) + Covering(1, i, p)
      {
        SetPrivateBits(i, true);
        i := i + 1;
      }
    }
  }
}
