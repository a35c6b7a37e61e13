/** Minor collection of one segment, nursery.c: moving the young objects that
    survive out of the nursery.

    An object has an address, some data and a list of references; 0 is NULL.
    Most young objects are in the nursery, some were allocated outside of it.  An
    old object that may refer to a young one is in a list of remembered objects,
    or has the reference covered by a marked card. */
module Nursery {
  const CARD_SIZE: nat := 32

  datatype Obj = Obj(data: int, refs: seq<nat>)

  type Heap = map<nat, Obj>

  /** The memory of a segment during the collection.  The last ones
      are bookkeeping: the heap that the collection started from, its young objects
      and roots, where each of them went, and which object lives at an address. */
  datatype Mem = Mem(
    nurseryStart: nat,
    nurseryEnd: nat,
    heap: Heap,
    top: nat,                   // new large objects are allocated from here
    moved: map<nat, nat>,       // GCWORD_MOVED and the forwarding address
    shadows: map<nat, nat>,     // nursery_objects_shadows
    outside: set<nat>,          // young_outside_nursery
    remembered: seq<nat>,       // objects_pointing_to_nursery
    barrier: set<nat>,          // objects with GCFLAG_WRITE_BARRIER
    cards: map<nat, set<nat>>,  // objects with GCFLAG_CARDS_SET, and their cards that are CARD_MARKED
    withCards: seq<nat>,        // old_objects_with_cards
    start: Heap,
    young: set<nat>,
    startRoots: seq<nat>,
    image: map<nat, nat>,
    origin: map<nat, nat>)

  predicate InNursery(m: Mem, o: nat) { m.nurseryStart <= o < m.nurseryEnd }

  /** What the program may refer to when the collection starts. */
  ghost predicate Known(m: Mem, o: nat) {
    o in m.start && o !in m.shadows.Values
  }

  ghost predicate Old(m: Mem, o: nat) {
    Known(m, o) && o !in m.young
  }

  /** The heap before the collection. */
  ghost predicate StartOk(m: Mem) {
    && 0 < m.nurseryStart && 0 !in m.start && m.nurseryEnd <= m.top
    && (forall x: nat, r: nat {:trigger r in m.start[x].refs} :: x in m.start && r in m.start[x].refs ==> r == 0 || Known(m, r))
    && (forall x: nat :: x in m.young ==> Known(m, x))
    && (forall x: nat :: x in m.start && InNursery(m, x) ==> x in m.young)
    && (forall o: nat :: o in m.shadows ==> o in m.young && InNursery(m, o))
    && (forall o: nat :: o in m.shadows ==> m.shadows[o] in m.start && !InNursery(m, m.shadows[o]))
    && (forall o: nat, p: nat :: o in m.shadows && p in m.shadows && m.shadows[o] == m.shadows[p] ==> o == p)
  }

  /** Where a pointer of the start leads to now. */
  function Image(m: Mem, p: nat): nat { if p in m.image then m.image[p] else p }

  /** The young objects that moved so far, and where they are. */
  ghost predicate MovesOk(m: Mem) {
    && (forall o: nat {:trigger MoveOk(m, o)} :: o in m.image ==> MoveOk(m, o))
    && (forall o: nat :: o in m.moved ==> o in m.image && m.moved[o] == m.image[o])
    && (forall o: nat :: o in m.outside <==> o in m.young && !InNursery(m, o) && o !in m.image)
  }

  ghost predicate MoveOk(m: Mem, o: nat)
    requires o in m.image
  {
    var q := m.image[o];
    && o in m.young && q in m.origin && m.origin[q] == o && q != 0 && !InNursery(m, q)
    && (if InNursery(m, o) then o in m.moved && q !in m.young else q == o)
    && (o in m.shadows ==> q == m.shadows[o])
  }

  /** The objects that are where they should be: the old ones and what moved. */
  ghost predicate OriginsOk(m: Mem) {
    && (forall x: nat :: Old(m, x) ==> x in m.origin && m.origin[x] == x)
    && (forall x: nat {:trigger OriginOk(m, x)} :: x in m.origin ==> OriginOk(m, x))
    && (forall o: nat :: o in m.shadows && o !in m.image ==> m.shadows[o] !in m.origin)
  }

  ghost predicate OriginOk(m: Mem, x: nat)
    requires x in m.origin
  {
    (Old(m, x) && m.origin[x] == x) || (m.origin[x] in m.image && m.image[m.origin[x]] == x)
  }

  ghost predicate HeapOk(m: Mem) {
    && (forall x: nat :: x in m.heap ==> x < m.top && (x in m.start || x in m.origin)) && (forall x: nat :: x in m.start ==> x in m.heap)
    && (forall o: nat :: o in m.young && o !in m.image ==> o in m.heap && o in m.start && m.heap[o] == m.start[o])
    && (forall x: nat {:trigger SameObject(m, x)} :: x in m.origin ==> SameObject(m, x))
  }

  /** Object x is what its original was, but some references may already lead to
      the new places. */
  ghost predicate SameObject(m: Mem, x: nat) {
    && x in m.origin && x in m.heap && m.origin[x] in m.start
    && var now, was := m.heap[x], m.start[m.origin[x]];
    && now.data == was.data && |now.refs| == |was.refs|
    && forall i :: 0 <= i < |was.refs| ==> now.refs[i] == was.refs[i] || now.refs[i] == Image(m, was.refs[i])
  }

  ghost predicate ListsOk(m: Mem) {
    && (forall x: nat :: x in m.remembered ==> x in m.origin)
    && (forall x: nat :: x in m.withCards ==> x in m.origin)
    && (forall x: nat :: x in m.barrier ==> x in m.origin)
  }

  ghost predicate MemOk(m: Mem) {
    StartOk(m) && MovesOk(m) && OriginsOk(m) && HeapOk(m) && ListsOk(m)
  }

  // ----- moving one object

  /** A pointer that may be found in a root or a reference during the collection. */
  ghost predicate Pointer(m: Mem, p: nat) {
    p == 0 || Known(m, p) || p in m.origin
  }

  ghost predicate ToMove(m: Mem, p: nat) {
    p in m.young && p !in m.image
  }

  /** Where an object goes: to its shadow, to a new place, or nowhere if it is
      not in the nursery. */
  function Target(m: Mem, p: nat): nat {
    if !InNursery(m, p) then p else if p in m.shadows then m.shadows[p] else m.top
  }

  /** The effect of minor_trace_if_young on an object that did not move yet. */
  ghost function Move(m: Mem, p: nat): Mem
    requires p in m.heap
  {
    var q := Target(m, p);
    m.(heap := m.heap[q := m.heap[p]],
       top := if q == m.top then m.top + 1 else m.top,
       moved := if InNursery(m, p) then m.moved[p := q] else m.moved,
       outside := m.outside - {p},
       remembered := m.remembered + [q],
       image := m.image[p := q],
       origin := m.origin[q := p])
  }

  /** The target of a move was not in use. */
  lemma NewPlace(m: Mem, p: nat)
    requires MemOk(m) && ToMove(m, p)
    ensures p in m.heap && p in m.start && m.heap[p] == m.start[p] && p != 0
    ensures var q := Target(m, p);
      q !in m.origin && !Old(m, q) && q != 0 && !InNursery(m, q) && (q != p ==> q !in m.young)
  {
    var q := Target(m, p);
    assert Known(m, p);
    MovedIsNotYoung(m, p);
    OriginBelowTop(m, q);
  }

  lemma MovedIsNotYoung(m: Mem, x: nat)
    requires MemOk(m)
    ensures x in m.origin ==> x !in m.young || x in m.image
  {
    if x in m.origin {
      assert OriginOk(m, x);
      if m.origin[x] in m.image { assert MoveOk(m, m.origin[x]); }
    }
  }

  lemma OriginBelowTop(m: Mem, x: nat)
    requires MemOk(m)
    ensures x in m.origin ==> x < m.top
  {
    if x in m.origin { assert SameObject(m, x); }
  }

  lemma MoveKeepsMove(m: Mem, p: nat, o: nat)
    requires MemOk(m) && ToMove(m, p) && p in m.heap && o in Move(m, p).image
    ensures MoveOk(Move(m, p), o)
  {
    NewPlace(m, p);
    if o != p { assert MoveOk(m, o); }
  }

  lemma MoveKeepsMoves(m: Mem, p: nat)
    requires MemOk(m) && ToMove(m, p)
    ensures p in m.heap && MovesOk(Move(m, p))
  {
    hide ListsOk, HeapOk, OriginsOk;
    NewPlace(m, p);
    forall o: nat | o in Move(m, p).image ensures MoveOk(Move(m, p), o) { MoveKeepsMove(m, p, o); }
  }

  lemma MoveKeepsOrigins(m: Mem, p: nat)
    requires MemOk(m) && ToMove(m, p)
    ensures p in m.heap && OriginsOk(Move(m, p))
  {
    NewPlace(m, p);
    var m' := Move(m, p);
    forall x: nat | x in m'.origin ensures OriginOk(m', x) {
      if x != Target(m, p) { assert OriginOk(m, x); }
    }
    forall x: nat | Old(m', x) ensures x in m'.origin && m'.origin[x] == x {
      assert Old(m, x);
    }
    forall o: nat | o in m'.shadows && o !in m'.image ensures m'.shadows[o] !in m'.origin {
      assert m.shadows[o] in m.heap;
    }
  }

  lemma MoveKeepsObject(m: Mem, p: nat, x: nat)
    requires MemOk(m) && ToMove(m, p) && p in m.heap && x in Move(m, p).origin
    ensures SameObject(Move(m, p), x)
  {
    NewPlace(m, p);
    if x != Target(m, p) { assert SameObject(m, x); }
  }

  lemma MoveKeepsHeap(m: Mem, p: nat)
    requires MemOk(m) && ToMove(m, p)
    ensures p in m.heap && HeapOk(Move(m, p)) && ListsOk(Move(m, p))
  {
    NewPlace(m, p);
    forall x: nat | x in Move(m, p).origin ensures SameObject(Move(m, p), x) { MoveKeepsObject(m, p, x); }
  }

  /** Moving an object keeps everything. */
  lemma MoveKeeps(m: Mem, p: nat)
    requires MemOk(m) && ToMove(m, p)
    ensures p in m.heap && MemOk(Move(m, p))
  {
    MoveKeepsMoves(m, p);
    MoveKeepsOrigins(m, p);
    MoveKeepsHeap(m, p);
  }

  // ----- references still to be looked at

  /** Reference i of x leads to where it should. */
  ghost predicate Resolved(m: Mem, x: nat, i: nat)
    requires SameObject(m, x) && i < |m.heap[x].refs|
  {
    var r := m.start[m.origin[x]].refs[i];
    m.heap[x].refs[i] == Image(m, r) && (r in m.young ==> r in m.image)
  }

  ghost predicate Covered(m: Mem, x: nat, i: nat) {
    x in m.cards && i / CARD_SIZE in m.cards[x]
  }

  /** The part of an object that is being traced. */
  datatype Span = Span(obj: nat, from: nat, to: nat)

  /** What still waits: an object whose fields will all be traced, because it is
      in the list or in `todo`, a reference under a marked card, or one in the
      span that is being traced. */
  ghost predicate Waiting(m: Mem, todo: set<nat>, span: Span, x: nat, i: nat) {
    ((x in todo || x in m.remembered) && x !in m.barrier) || Covered(m, x, i) || (x == span.obj && span.from <= i < span.to)
  }

  ghost predicate Scheduled(m: Mem, todo: set<nat>, span: Span) {
    forall x: nat {:trigger ScheduledObject(m, todo, span, x)} :: x in m.origin ==> ScheduledObject(m, todo, span, x)
  }

  ghost predicate ScheduledObject(m: Mem, todo: set<nat>, span: Span, x: nat) {
    SameObject(m, x) && forall i: nat {:trigger Resolved(m, x, i)} :: i < |m.heap[x].refs| ==>
      Resolved(m, x, i) || Waiting(m, todo, span, x, i)
  }

  lemma MoveKeepsScheduledObject(m: Mem, p: nat, todo: set<nat>, span: Span, x: nat)
    requires MemOk(m) && ToMove(m, p) && Scheduled(m, todo, span) && p in m.heap && x in Move(m, p).origin
    ensures ScheduledObject(Move(m, p), todo, span, x)
  {
    NewPlace(m, p);
    var m' := Move(m, p);
    MoveKeepsObject(m, p, x);
    if x != Target(m, p) {
      assert ScheduledObject(m, todo, span, x);
      forall i: nat | i < |m'.heap[x].refs| ensures Resolved(m', x, i) || Waiting(m', todo, span, x, i) {
        assert Resolved(m, x, i) || Waiting(m, todo, span, x, i);
      }
    } else {
      assert x in m'.remembered && x !in m'.barrier;
    }
  }

  lemma MoveKeepsScheduled(m: Mem, p: nat, todo: set<nat>, span: Span)
    requires MemOk(m) && ToMove(m, p) && Scheduled(m, todo, span)
    ensures p in m.heap && Scheduled(Move(m, p), todo, span)
  {
    NewPlace(m, p);
    forall x: nat | x in Move(m, p).origin ensures ScheduledObject(Move(m, p), todo, span, x) {
      MoveKeepsScheduledObject(m, p, todo, span, x);
    }
  }

  // ----- tracing one reference

  ghost function SetRef(m: Mem, x: nat, i: nat, v: nat): Mem
    requires x in m.heap && i < |m.heap[x].refs|
  {
    m.(heap := m.heap[x := m.heap[x].(refs := m.heap[x].refs[i := v])])
  }

  /** A reference is a pointer, and its final value is the image of the original
      whether or not it was resolved already. */
  lemma RefIsPointer(m: Mem, x: nat, i: nat)
    requires MemOk(m) && x in m.origin && SameObject(m, x) && i < |m.heap[x].refs|
    ensures var r, p := m.start[m.origin[x]].refs[i], m.heap[x].refs[i];
      Pointer(m, p) && (r == 0 || Known(m, r)) && (p != r ==> r in m.image && p == m.image[r] && !ToMove(m, p) && Image(m, p) == p)
  {
    var r, p := m.start[m.origin[x]].refs[i], m.heap[x].refs[i];
    assert r in m.start[m.origin[x]].refs;
    if p != r { ImageIsStable(m, r); }
  }

  /** A place that an object moved to is not young, or is its own image. */
  lemma ImageIsStable(m: Mem, r: nat)
    requires MemOk(m) && r in m.image
    ensures !ToMove(m, m.image[r]) && Image(m, m.image[r]) == m.image[r] && m.image[r] in m.origin
  {
    assert MoveOk(m, r);
    var q := m.image[r];
    if q in m.image { assert MoveOk(m, q); }
  }

  lemma SetRefKeepsObject(m: Mem, x: nat, i: nat, y: nat)
    requires MemOk(m) && x in m.origin && SameObject(m, x) && i < |m.heap[x].refs| && y in m.origin
    ensures SameObject(SetRef(m, x, i, Image(m, m.start[m.origin[x]].refs[i])), y)
  {
    assert SameObject(m, y);
  }

  lemma SetRefKeepsMoves(m: Mem, x: nat, i: nat, v: nat)
    requires MovesOk(m) && OriginsOk(m) && x in m.heap && i < |m.heap[x].refs|
    ensures MovesOk(SetRef(m, x, i, v)) && OriginsOk(SetRef(m, x, i, v))
  {
    var m' := SetRef(m, x, i, v);
    forall o: nat | o in m'.image ensures MoveOk(m', o) { assert MoveOk(m, o); }
    forall y: nat | y in m'.origin ensures OriginOk(m', y) { assert OriginOk(m, y); }
  }

  lemma SetRefKeeps(m: Mem, x: nat, i: nat)
    requires MemOk(m) && x in m.origin && SameObject(m, x) && i < |m.heap[x].refs|
    ensures MemOk(SetRef(m, x, i, Image(m, m.start[m.origin[x]].refs[i])))
  {
    var v := Image(m, m.start[m.origin[x]].refs[i]);
    var m' := SetRef(m, x, i, v);
    SetRefKeepsMoves(m, x, i, v);
    forall y: nat | y in m'.origin ensures SameObject(m', y) { SetRefKeepsObject(m, x, i, y); }
    MovedIsNotYoung(m, x);
  }

  lemma SetRefKeepsScheduled(m: Mem, x: nat, i: nat, todo: set<nat>, span: Span)
    requires MemOk(m) && x in m.origin && SameObject(m, x) && i < |m.heap[x].refs|
    requires var r := m.start[m.origin[x]].refs[i]; r in m.young ==> r in m.image
    requires span.obj == x && span.from == i && Scheduled(m, todo, span)
    ensures Scheduled(SetRef(m, x, i, Image(m, m.start[m.origin[x]].refs[i])), todo, span.(from := i + 1))
  {
    var m' := SetRef(m, x, i, Image(m, m.start[m.origin[x]].refs[i]));
    forall y: nat | y in m'.origin ensures ScheduledObject(m', todo, span.(from := i + 1), y) {
      assert ScheduledObject(m, todo, span, y);
      SetRefKeepsObject(m, x, i, y);
      forall j: nat | j < |m'.heap[y].refs| ensures Resolved(m', y, j) || Waiting(m', todo, span.(from := i + 1), y, j) {
        assert Resolved(m, y, j) || Waiting(m, todo, span, y, j);
      }
    }
  }

  // ----- why an object moved

  ghost predicate IsPath(m: Mem, p: seq<nat>) {
    && |p| > 0 && (p[0] in m.startRoots || Old(m, p[0]))
    && (forall i :: 0 <= i < |p| ==> p[i] in m.start)
    && (forall i :: 0 <= i < |p| - 1 ==> p[i + 1] in m.start[p[i]].refs)
  }

  /** The object is a root or old, or can be reached from one. */
  ghost predicate Reachable(m: Mem, o: nat) {
    exists p :: IsPath(m, p) && p[|p| - 1] == o
  }

  ghost predicate OnlyReachable(m: Mem) {
    forall o: nat :: o in m.image ==> Reachable(m, o)
  }

  lemma ReachableNext(m: Mem, o: nat, r: nat)
    requires Reachable(m, o) && o in m.start && r in m.start[o].refs && r in m.start
    ensures Reachable(m, r)
  {
    var p :| IsPath(m, p) && p[|p| - 1] == o;
    assert IsPath(m, p + [r]) && (p + [r])[|p|] == r;
  }

  lemma ReachableOrigin(m: Mem, x: nat)
    requires MemOk(m) && OnlyReachable(m) && x in m.origin
    ensures m.origin[x] in m.start && Reachable(m, m.origin[x])
  {
    assert OriginOk(m, x);
    if Old(m, x) && m.origin[x] == x { assert IsPath(m, [x]) && [x][0] == x; } else { assert MoveOk(m, m.origin[x]); }
  }

  /** If everything that can be traced was traced, whatever is reachable moved. */
  lemma {:induction false} AllReachableMoved(m: Mem, p: seq<nat>)
    requires MemOk(m) && IsPath(m, p)
    requires forall r: nat :: r in m.startRoots && r in m.young ==> r in m.image
    requires forall o: nat, r: nat {:trigger r in m.start[o].refs} ::
      (Old(m, o) || o in m.image) && o in m.start && r in m.start[o].refs && r in m.young ==> r in m.image
    requires forall r: nat :: r in m.startRoots ==> r == 0 || Known(m, r)
    ensures var o := p[|p| - 1]; Old(m, o) || o in m.image
    decreases |p|
  {
    if |p| > 1 {
      var q := p[..|p| - 1];
      AllReachableMoved(m, q);
      var o, r := q[|q| - 1], p[|p| - 1];
      assert o == p[|p| - 2] && r in m.start[o].refs;
      assert r == 0 || Known(m, r);
    }
  }

  // ----- the collection in place

  /** While tracing, more objects may have moved; nothing else changes for the
      ones that were there, except that references get resolved. */
  ghost predicate Grown(m: Mem, m': Mem) {
    && (forall o: nat :: o in m.image ==> o in m'.image && m'.image[o] == m.image[o])
    && (forall x: nat :: x in m.origin ==> x in m'.origin && m'.origin[x] == m.origin[x])
    && (m'.image.Keys == m.image.Keys ==> m'.remembered == m.remembered) && Listed(m, m')
    && m'.start == m.start && m'.young == m.young && m'.shadows == m.shadows && m'.startRoots == m.startRoots
    && m'.barrier == m.barrier && m'.cards == m.cards && m'.withCards == m.withCards
    && m'.nurseryStart == m.nurseryStart && m'.nurseryEnd == m.nurseryEnd
  }

  /** Whatever moved in between is in the list, and nothing left it. */
  ghost predicate Listed(m: Mem, m': Mem) {
    && (forall x: nat :: x in m'.origin ==> x in m.origin || x in m'.remembered)
    && (forall x: nat :: x in m.remembered ==> x in m'.remembered)
  }

  /** Every object but x has the write barrier flag, or is in a list of those that
      will get it. */
  ghost predicate FlaggedBut(m: Mem, todo: set<nat>, x: nat) {
    forall y: nat :: y in m.origin ==> y in m.barrier || y in m.remembered || y in todo || y == x
  }

  ghost predicate Flagged(m: Mem, todo: set<nat>) {
    forall y: nat :: y in m.origin ==> y in m.barrier || y in m.remembered || y in todo
  }

  ghost predicate TracedIn(m: Mem, x: nat, from: nat, to: nat) {
    SameObject(m, x) && forall i: nat {:trigger Resolved(m, x, i)} :: from <= i < to && i < |m.heap[x].refs| ==> Resolved(m, x, i)
  }

  lemma MoveKeepsTraced(m: Mem, p: nat, x: nat, from: nat, to: nat)
    requires MemOk(m) && ToMove(m, p) && p in m.heap && x in m.origin && TracedIn(m, x, from, to)
    ensures TracedIn(Move(m, p), x, from, to)
  {
    NewPlace(m, p);
    var m' := Move(m, p);
    MoveKeepsObject(m, p, x);
    forall i: nat | from <= i < to && i < |m'.heap[x].refs| ensures Resolved(m', x, i) {
      assert Resolved(m, x, i);
    }
  }

  lemma SetRefKeepsTraced(m: Mem, x: nat, i: nat, from: nat)
    requires MemOk(m) && x in m.origin && SameObject(m, x) && i < |m.heap[x].refs| && TracedIn(m, x, from, i)
    requires var r := m.start[m.origin[x]].refs[i]; r in m.young ==> r in m.image
    ensures TracedIn(SetRef(m, x, i, Image(m, m.start[m.origin[x]].refs[i])), x, from, i + 1)
  {
    var m' := SetRef(m, x, i, Image(m, m.start[m.origin[x]].refs[i]));
    SetRefKeepsObject(m, x, i, x);
    forall j: nat | from <= j < i + 1 && j < |m'.heap[x].refs| ensures Resolved(m', x, j) {
      assert j < i ==> Resolved(m, x, j);
    }
  }

  class NurserySegment {
    const nurseryStart: nat
    const nurseryEnd: nat
    var heap: Heap
    var top: nat
    var moved: map<nat, nat>
    var shadows: map<nat, nat>
    var outside: set<nat>
    var remembered: seq<nat>
    var barrier: set<nat>
    var cards: map<nat, set<nat>>
    var withCards: seq<nat>
    var roots: seq<nat>            // shadow stack and thread-local object
    var current: nat               // nursery_current
    var hasList: bool              // whether objects_pointing_to_nursery exists
    var modified: seq<nat>         // modified_old_objects
    ghost var start: Heap
    ghost var young: set<nat>
    ghost var startRoots: seq<nat>
    ghost var image: map<nat, nat>
    ghost var origin: map<nat, nat>

    ghost function View(): Mem
      reads this
    {
      Mem(nurseryStart, nurseryEnd, heap, top, moved, shadows, outside, remembered, barrier, cards, withCards,
          start, young, startRoots, image, origin)
    }

    /** minor_trace_if_young: the new value of a pointer; moves the object if it is
        young and did not move yet. */
    method TraceIfYoung(p: nat) returns (q: nat)
      requires MemOk(View()) && Pointer(View(), p)
      modifies this`heap, this`top, this`moved, this`outside, this`remembered, this`image, this`origin
      ensures ToMove(old(View()), p) ==> p in old(heap) && View() == Move(old(View()), p)
      ensures !ToMove(old(View()), p) ==> View() == old(View())
      ensures MemOk(View()) && q == Image(View(), p) && !ToMove(View(), p)
    {
      PointerCases(View(), p);
      q := p;
      if p == 0 {
        return;
      }
      if nurseryStart <= p < nurseryEnd {
        if p in moved {
          return moved[p];
        }
        q := MoveOut(p);
      } else {
        if p !in outside {
          return;
        }
        KeepOutside(p);
      }
    }

    /** Copies an object to its shadow, or to a new place. */
    method MoveOut(p: nat) returns (q: nat)
      requires MemOk(View()) && ToMove(View(), p) && InNursery(View(), p)
      modifies this`heap, this`top, this`moved, this`outside, this`remembered, this`image, this`origin
      ensures p in old(heap) && View() == Move(old(View()), p) && MemOk(View()) && q == Image(View(), p) && !ToMove(View(), p)
    {
      hide Scheduled, OriginsOk, HeapOk, SameObject, ListsOk;
      ghost var m := View();
      PointerCases(m, p);
      MoveKeeps(m, p);
      if p in shadows {
        q := shadows[p];
      } else {
        q := top;
        top := top + 1;
      }
      assert outside - {p} == outside;
      Forward(p, q);
      assert View() == Move(m, p);
    }

    method Forward(p: nat, q: nat)
      requires p in heap
      modifies this`heap, this`moved, this`remembered, this`image, this`origin
      ensures View() == old(View()).(
        heap := old(heap)[q := old(heap)[p]], moved := old(moved)[p := q], remembered := old(remembered) + [q],
        image := old(image)[p := q], origin := old(origin)[q := p])
    {
      heap := heap[q := heap[p]];
      moved := moved[p := q];
      remembered := remembered + [q];
      image, origin := image[p := q], origin[q := p];
    }

    /** A young object outside of the nursery survives where it is. */
    method KeepOutside(p: nat)
      requires MemOk(View()) && ToMove(View(), p) && !InNursery(View(), p)
      modifies this`heap, this`top, this`moved, this`outside, this`remembered, this`image, this`origin
      ensures p in old(heap) && View() == Move(old(View()), p) && MemOk(View()) && p == Image(View(), p) && !ToMove(View(), p)
    {
      hide OriginsOk, ListsOk, SameObject;
      ghost var m := View();
      MoveKeeps(m, p);
      outside := outside - {p};
      remembered := remembered + [p];
      image, origin := image[p := p], origin[p := p];
      assert heap[p := heap[p]] == heap;
      assert View() == Move(m, p);
    }

    /** stmcb_trace or stmcb_trace_cards: resolves the references from `from` up
        to `to` of an object. */
    method TraceRange(x: nat, from: nat, to: nat, ghost todo: set<nat>)
      requires from <= to && Tracing(View(), View(), x, from, from, to, todo)
      modifies this`heap, this`top, this`moved, this`outside, this`remembered, this`image, this`origin
      ensures Tracing(old(View()), View(), x, from, to, to, todo)
    {
      hide Tracing;
      ghost var m0 := View();
      var i := from;
      while i < to
        invariant from <= i <= to && Tracing(m0, View(), x, from, i, to, todo)
      {
        TraceOne(m0, x, from, i, to, todo);
        i := i + 1;
      }
    }

    method TraceOne(ghost m0: Mem, x: nat, ghost from: nat, i: nat, ghost to: nat, ghost todo: set<nat>)
      requires from <= i < to && Tracing(m0, View(), x, from, i, to, todo)
      modifies this`heap, this`top, this`moved, this`outside, this`remembered, this`image, this`origin
      ensures Tracing(m0, View(), x, from, i + 1, to, todo)
    {
      ghost var m := View();
      RefIsPointer(m, x, i);
      var q := TraceIfYoung(heap[x].refs[i]);
      TracedPointer(m0, m, View(), x, from, i, to, todo);
      heap := heap[x := heap[x].(refs := heap[x].refs[i := q])];
    }

    /** _collect_now */
    method CollectNow(x: nat, ghost todo: set<nat>)
      requires Taken(View(), todo, x)
      modifies this`heap, this`top, this`moved, this`outside, this`remembered, this`image, this`origin, this`barrier
      ensures Collecting(View(), todo)
      ensures Grown(old(View()), View().(barrier := old(barrier)))
    {
      if x !in barrier {
        ghost var m := View();
        TakenTracing(m, todo, x);
        TraceRange(x, 0, |heap[x].refs|, todo);
        BarrierKeeps(m, View(), x, todo);
        barrier := barrier + {x};
      }
    }

    /** collect_oldrefs_to_nursery */
    method CollectOldRefs()
      requires Collecting(View(), {})
      modifies this`heap, this`top, this`moved, this`outside, this`remembered, this`image, this`origin, this`barrier
      ensures Collecting(View(), {}) && remembered == []
      ensures GrownBut(old(View()), View())
    {
      ghost var m := View();
      while remembered != []
        invariant Collecting(View(), {}) && GrownBut(m, View())
        decreases young - image.Keys, |remembered|
      {
        CollectLast(m);
      }
    }

    method CollectLast(ghost m: Mem)
      requires Collecting(View(), {}) && GrownBut(m, View()) && remembered != []
      modifies this`heap, this`top, this`moved, this`outside, this`remembered, this`image, this`origin, this`barrier
      ensures Collecting(View(), {}) && GrownBut(m, View())
      ensures Fewer(old(View()), View())
    {
      ghost var m1 := View();
      var x := remembered[|remembered| - 1];
      remembered := remembered[..|remembered| - 1];
      Popped(m1, View(), x);
      CollectNow(x, {});
      StillFewer(m, m1, View());
    }

    /** collect_modified_old_objects, when the list of remembered objects stands
        for all modified ones. */
    method CollectModified(modified: seq<nat>)
      requires Collecting(View(), Elements(modified)) && forall x :: x in modified ==> x in origin
      modifies this`heap, this`top, this`moved, this`outside, this`remembered, this`image, this`origin, this`barrier
      ensures Collecting(View(), {}) && GrownBut(old(View()), View())
    {
      ghost var m := View();
      var k := |modified|;
      assert modified[..k] == modified;
      while k > 0
        invariant 0 <= k <= |modified| && GrownBut(m, View())
        invariant Collecting(View(), Elements(modified[..k])) && forall x :: x in modified ==> x in origin
      {
        k := k - 1;
        CollectItem(m, modified, k);
      }
      assert Elements(modified[..0]) == {};
    }

    method CollectItem(ghost m: Mem, modified: seq<nat>, k: nat)
      requires k < |modified| && Collecting(View(), Elements(modified[..k + 1])) && GrownBut(m, View())
      requires forall x :: x in modified ==> x in origin
      modifies this`heap, this`top, this`moved, this`outside, this`remembered, this`image, this`origin, this`barrier
      ensures Collecting(View(), Elements(modified[..k])) && GrownBut(m, View())
      ensures forall x :: x in modified ==> x in origin
    {
      ghost var m1 := View();
      var x := modified[k];
      assert modified[..k + 1] == modified[..k] + [x];
      TakenNext(m1, Elements(modified[..k + 1]), Elements(modified[..k]), x);
      CollectNow(x, Elements(modified[..k]));
      GrownTwice(m, m1, View());
    }

    /** collect_cardrefs_to_nursery */
    method CollectCardRefs(ghost todo: set<nat>)
      requires Collecting(View(), todo) && forall x :: x in cards ==> x in withCards
      modifies this`heap, this`top, this`moved, this`outside, this`remembered, this`image, this`origin, this`cards, this`withCards
      ensures Collecting(View(), todo) && withCards == [] && cards == map[]
      ensures GrownBut(old(View()), View())
    {
      ghost var m := View();
      while withCards != []
        invariant Collecting(View(), todo) && GrownBut(m, View()) && forall x :: x in cards ==> x in withCards
        decreases |withCards|
      {
        CollectLastCardRef(m, todo);
      }
    }

    method CollectLastCardRef(ghost m: Mem, ghost todo: set<nat>)
      requires Collecting(View(), todo) && GrownBut(m, View()) && withCards != [] && forall x :: x in cards ==> x in withCards
      modifies this`heap, this`top, this`moved, this`outside, this`remembered, this`image, this`origin, this`cards, this`withCards
      ensures Collecting(View(), todo) && GrownBut(m, View()) && |withCards| < |old(withCards)|
      ensures forall x :: x in cards ==> x in withCards
    {
      hide OnlyReachable, Scheduled, OriginsOk, MovesOk, HeapOk, StartOk;
      ghost var m1 := View();
      var x := withCards[|withCards| - 1];
      withCards := withCards[..|withCards| - 1];
      CardsPopped(m1, View(), todo, x);
      if x in cards {
        TraceCards(m, x, todo);
      }
    }

    /** _trace_card_object */
    method TraceCards(ghost m: Mem, x: nat, ghost todo: set<nat>)
      requires Collecting(View(), todo) && GrownBut(m, View()) && x in cards && x in origin
      modifies this`heap, this`top, this`moved, this`outside, this`remembered, this`image, this`origin, this`cards
      ensures Collecting(View(), todo) && GrownBut(m, View()) && cards == old(cards) - {x}
    {
      hide OnlyReachable, Scheduled, OriginsOk, MovesOk;
      ghost var others := cards - {x};
      var card := TraceMarked(m, x, todo);
      CardsDone(View(), x, card, todo);
      cards := cards - {x};
      assert cards == others;
    }

    /** The loop over the cards of one object. */
    method TraceMarked(ghost m: Mem, x: nat, ghost todo: set<nat>) returns (card: nat)
      requires Collecting(View(), todo) && GrownBut(m, View()) && x in cards && x in origin
      modifies this`heap, this`top, this`moved, this`outside, this`remembered, this`image, this`origin, this`cards
      ensures Collecting(View(), todo) && GrownBut(m, View()) && x in cards && x in origin && x in heap
      ensures cards - {x} == old(cards) - {x} && CardsBelow(cards[x], card) && card * CARD_SIZE >= |heap[x].refs|
    {
      hide Collecting, GrownBut, MemOk;
      ObjectThere(View(), x, todo);
      card := 0;
      while card * CARD_SIZE < |heap[x].refs|
        invariant Collecting(View(), todo) && GrownBut(m, View()) && x in cards && x in origin && x in heap
        invariant |heap[x].refs| == |old(heap)[x].refs| && CardsBelow(cards[x], card)
        invariant cards - {x} == old(cards) - {x}
        decreases |heap[x].refs| - card * CARD_SIZE
      {
        if card in cards[x] {
          TraceCard(m, x, card, todo);
        }
        card := card + 1;
      }
    }

    method TraceCard(ghost m: Mem, x: nat, card: nat, ghost todo: set<nat>)
      requires Collecting(View(), todo) && GrownBut(m, View()) && x in cards && x in origin && x in heap && card * CARD_SIZE < |heap[x].refs|
      modifies this`heap, this`top, this`moved, this`outside, this`remembered, this`image, this`origin, this`cards
      ensures Collecting(View(), todo) && GrownBut(m, View()) && x in origin && x in heap
      ensures cards == old(cards)[x := old(cards)[x] - {card}] && |heap[x].refs| == |old(heap)[x].refs|
    {
      hide Collecting, GrownBut, Tracing, Flagged, SameObject, MemOk;
      ghost var m0 := View();
      cards := cards[x := cards[x] - {card}];
      var start := card * CARD_SIZE;
      var stop := if start + CARD_SIZE <= |heap[x].refs| then start + CARD_SIZE else |heap[x].refs|;
      CardTaken(m0, x, card, todo, start, stop);
      CardTakenGrown(m, m0, x, cards[x]);
      ghost var m1 := View();
      TraceRange(x, start, stop, todo);
      TracedStays(m1, View(), x, start, stop, stop, todo);
      CardTraced(m, m1, View(), x, start, stop, todo);
    }

    /** collect_roots_in_nursery */
    method CollectRoots(ghost todo: set<nat>)
      requires Collecting(View(), todo) && roots == startRoots && RootsKnown(View())
      modifies this`heap, this`top, this`moved, this`outside, this`remembered, this`image, this`origin, this`roots
      ensures Collecting(View(), todo) && GrownBut(old(View()), View()) && RootsDone(View(), roots, 0)
    {
      ghost var m := View();
      var k := |roots|;
      while k > 0
        invariant 0 <= k <= |roots| && Collecting(View(), todo) && GrownBut(m, View()) && RootsKnown(View())
        invariant RootsDone(View(), roots, k) && roots[..k] == startRoots[..k]
      {
        k := k - 1;
        CollectRoot(m, k, todo);
      }
    }

    method CollectRoot(ghost m: Mem, k: nat, ghost todo: set<nat>)
      requires Collecting(View(), todo) && GrownBut(m, View()) && RootsKnown(View())
      requires RootsDone(View(), roots, k + 1) && k < |roots| && roots[..k + 1] == startRoots[..k + 1]
      modifies this`heap, this`top, this`moved, this`outside, this`remembered, this`image, this`origin, this`roots
      ensures Collecting(View(), todo) && GrownBut(m, View()) && RootsKnown(View())
      ensures RootsDone(View(), roots, k) && k <= |roots| && roots[..k] == startRoots[..k]
    {
      ghost var m1 := View();
      assert roots[k] == roots[..k + 1][k] == startRoots[k];
      assert roots[..k] == roots[..k + 1][..k] == startRoots[..k];
      var q := TraceIfYoung(roots[k]);
      RootTraced(m, m1, View(), roots, k, todo);
      roots := roots[k := q];
    }

    /** throw_away_nursery: zeroes the nursery, frees the young objects outside of
        it that nobody reached, and forgets the shadows.  (The memory of a shadow
        whose object died is freed by the next major collection; nobody can refer
        to it any more.) */
    method ThrowAway()
      modifies this`heap, this`moved, this`shadows, this`outside
      ensures heap == (map x | x in old(heap) && !InNursery(old(View()), x) && x !in old(outside) && !DeadShadow(old(View()), x) :: old(heap)[x])
      ensures moved == map[] && shadows == map[] && outside == {}
    {
      var dead := set o | o in shadows && o !in moved :: shadows[o];
      assert forall x :: DeadShadow(View(), x) <==> x in dead;
      heap := map x | x in heap && !(nurseryStart <= x < nurseryEnd) && x !in outside && x !in dead :: heap[x];
      moved, shadows, outside := map[], map[], {};
    }

    /** _do_minor_collection.  If there is no list of remembered objects, it stands
        for all modified old objects. */
    method MinorCollection(hasList: bool, modified: seq<nat>)
      requires Ready(View(), roots, if hasList then {} else Elements(modified))
      requires forall x :: x in modified ==> x in origin
      modifies this`heap, this`top, this`moved, this`shadows, this`outside, this`remembered, this`barrier, this`cards, this`withCards,
               this`roots, this`image, this`origin
      ensures Survived(old(View()), View(), roots) && Settled(old(View()), View())
      ensures moved == map[] && shadows == map[] && outside == {} && remembered == [] && withCards == [] && cards == map[]
    {
      ghost var m0 := View();
      ReadyToCollect(m0, roots, if hasList then {} else Elements(modified));
      Trace(hasList, modified);
      ghost var m := View();
      ThrowAway();
      AllSurvived(m0, m, View(), roots);
      AllSettled(m0, m, View(), roots);
    }

    /** The tracing part, in the order of the collection. */
    method Trace(hasList: bool, modified: seq<nat>)
      requires Ready(View(), roots, if hasList then {} else Elements(modified))
      requires Collecting(View(), if hasList then {} else Elements(modified)) && forall x :: x in modified ==> x in origin
      modifies this`heap, this`top, this`moved, this`outside, this`remembered, this`barrier, this`cards, this`withCards,
               this`roots, this`image, this`origin
      ensures AllTraced(old(View()), View(), roots) && withCards == []
    {
      ghost var m0 := View();
      TraceRemembered(hasList, modified);
      RootsStayKnown(m0, View());
      CollectRoots({});
      ghost var m1 := View();
      CollectOldRefs();
      TracedAll(m0, m1, View(), roots);
    }

    method TraceRemembered(hasList: bool, modified: seq<nat>)
      requires Collecting(View(), if hasList then {} else Elements(modified)) && forall x :: x in modified ==> x in origin
      requires forall x :: x in cards ==> x in withCards
      modifies this`heap, this`top, this`moved, this`outside, this`remembered, this`barrier, this`cards, this`withCards,
               this`image, this`origin
      ensures Collecting(View(), {}) && GrownBut(old(View()), View()) && cards == map[] && withCards == []
    {
      if hasList {
        CollectCardRefs({});
      } else {
        CollectCardRefs(Elements(modified));
        CollectModified(modified);
      }
    }

    // ----- the program between two collections

    /** The old objects without the write barrier flag are in this list. */
    ghost function List(): seq<nat>
      reads this
    {
      if hasList then remembered else modified
    }

    ghost predicate Valid()
      reads this
    {
      Between(View(), roots, current, List()) && (!hasList ==> remembered == [])
      && forall x :: x in modified ==> x in origin
    }

    /** A segment without objects. */
    constructor (nurseryStart: nat, nurseryEnd: nat)
      requires 0 < nurseryStart <= nurseryEnd
      ensures Valid() && heap == map[] && roots == [] && !hasList
    {
      this.nurseryStart, this.nurseryEnd := nurseryStart, nurseryEnd;
      heap, top, moved, shadows, outside, remembered := map[], nurseryEnd, map[], map[], {}, [];
      barrier, cards, withCards, roots := {}, map[], [], [];
      current, hasList, modified := nurseryStart, false, [];
      start, young, startRoots, image, origin := map[], {}, [], map[], map[];
    }

    /** stm_allocate in the nursery, when there is room. */
    method Allocate(data: int, n: nat) returns (p: nat)
      requires Valid() && current < nurseryEnd
      modifies this`heap, this`current, this`start, this`young
      ensures Valid() && p == old(current) && p !in old(heap) && heap == old(heap)[p := Obj(data, Nulls(n))]
    {
      hide StartOk, PlacesOk, FlagsOk, PointersOk, RootsKnown;
      p := current;
      AllocatedKeeps(View(), roots, current, List(), data, n);
      current := current + 1;
      heap := heap[p := Obj(data, Nulls(n))];
      start, young := heap, young + {p};
    }

    /** _stm_allocate_external */
    method AllocateOutside(data: int, n: nat) returns (p: nat)
      requires Valid()
      modifies this`heap, this`top, this`outside, this`start, this`young
      ensures Valid() && p == old(top) && p !in old(heap) && heap == old(heap)[p := Obj(data, Nulls(n))]
    {
      hide StartOk, PlacesOk, FlagsOk, PointersOk, RootsKnown;
      p := top;
      AllocatedOutsideKeeps(View(), roots, current, List(), data, n);
      top := top + 1;
      heap, outside := heap[p := Obj(data, Nulls(n))], outside + {p};
      start, young := heap, young + {p};
    }

    /** find_shadow: where a young object will move to. */
    method FindShadow(p: nat) returns (q: nat)
      requires Valid() && p in young && InNursery(View(), p)
      modifies this`heap, this`top, this`shadows, this`start
      ensures Valid() && p in shadows && q == shadows[p] && q !in young
      ensures forall x :: x in old(heap) ==> x in heap && heap[x] == old(heap)[x]
    {
      hide StartOk, PlacesOk, FlagsOk, PointersOk, RootsKnown;
      if p in shadows {
        BetweenPlaces(View(), roots, current, List(), p);
        return shadows[p];
      }
      q := top;
      ShadowKeeps(View(), roots, current, List(), p);
      top := top + 1;
      heap, shadows := heap[q := heap[p]], shadows[p := q];
      start := heap;
    }

    /** stm_write: write_slowpath_common without card marking.  An overflow object
        is one that an earlier collection of the same transaction moved out. */
    method WriteBarrier(x: nat, isOverflow: bool)
      requires Valid() && Known(View(), x) && (isOverflow ==> hasList)
      modifies this`barrier, this`cards, this`remembered, this`modified
      ensures Valid() && x !in barrier
      ensures heap == old(heap) && roots == old(roots)
    {
      hide StartOk, PlacesOk, FlagsOk, PointersOk, RootsKnown;
      if x in barrier {
        ghost var m, list := View(), List();
        BarrierIsOld(m, roots, current, list, x);
        if !isOverflow && x !in modified {
          modified := modified + [x];
        }
        if hasList {
          remembered := remembered + [x];
        }
        cards := cards - {x};
        barrier := barrier - {x};
        BarrierDropped(m, View(), roots, current, list, List(), x);
      }
    }

    /** stm_write_card: marks the card of reference i, or does what stm_write does
        if the object does not use cards. */
    method WriteCard(x: nat, i: nat, usesCards: bool, isOverflow: bool)
      requires Valid() && Known(View(), x) && (isOverflow ==> hasList)
      modifies this`barrier, this`cards, this`withCards, this`remembered, this`modified
      ensures Valid() && (x in barrier ==> Covered(View(), x, i))
      ensures heap == old(heap) && roots == old(roots)
    {
      hide StartOk, PlacesOk, FlagsOk, PointersOk, RootsKnown;
      if x in barrier {
        if x !in cards {
          if !usesCards {
            WriteBarrier(x, isOverflow);
            return;
          }
          CardsSet(x, isOverflow);
        }
        ghost var m := View();
        cards := cards[x := cards[x] + {i / CARD_SIZE}];
        CardMarked(m, View(), roots, current, List(), x);
      }
    }

    /** The card marking branch of write_slowpath_common. */
    method CardsSet(x: nat, isOverflow: bool)
      requires Valid() && Known(View(), x) && x in barrier && x !in cards
      modifies this`cards, this`withCards, this`modified
      ensures Valid() && cards == old(cards)[x := {}]
    {
      hide StartOk, PlacesOk, FlagsOk, PointersOk, RootsKnown;
      ghost var m, list := View(), List();
      BarrierIsOld(m, roots, current, list, x);
      if !isOverflow && x !in modified {
        modified := modified + [x];
      }
      cards, withCards := cards[x := {}], withCards + [x];
      CardsStarted(m, View(), roots, current, list, List(), x);
    }

    /** A store of the program, after one of the write barriers for that reference. */
    method Store(x: nat, i: nat, v: nat)
      requires Valid() && Known(View(), x) && i < |heap[x].refs| && (v == 0 || Known(View(), v))
      requires x in barrier ==> Covered(View(), x, i)
      modifies this`heap, this`start
      ensures Valid() && heap == old(heap)[x := old(heap)[x].(refs := old(heap)[x].refs[i := v])]
    {
      hide PlacesOk, FlagsOk, PointersOk, RootsKnown;
      StoreKeeps(View(), roots, current, List(), x, i, v);
      heap := heap[x := heap[x].(refs := heap[x].refs[i := v])];
      start := heap;
    }

    /** The program's stack changes. */
    method SetRoots(newRoots: seq<nat>)
      requires Valid() && forall r :: r in newRoots ==> r == 0 || Known(View(), r)
      modifies this`roots, this`startRoots
      ensures Valid() && roots == newRoots
    {
      roots := newRoots;
      startRoots := newRoots;
    }

    /** A minor collection.  Afterwards nothing is young, and the program goes on.
        `done` is the memory at the end of the collection, which says what moved
        where. */
    method Collect() returns (ghost done: Mem)
      requires Valid()
      modifies this
      ensures Valid() && Survived(old(View()), done, roots) && heap == done.heap
      ensures young == {} && shadows == map[] && hasList && remembered == [] && current == nurseryStart && Between(View(), roots, current, [])
    {
      hide StartOk, PlacesOk, FlagsOk, PointersOk, RootsKnown, Ready, Survived, Settled;
      ghost var m0 := View();
      ReadyAlways(m0, roots, current, hasList, modified);
      MinorCollection(hasList, modified);
      done := View();
      ModifiedStay(m0, done, roots, modified);
      Restart(m0);
    }

    /** The nursery is empty, and everything is old. */
    method Restart(ghost m0: Mem)
      requires Survived(m0, View(), roots) && Settled(m0, View()) && 0 < m0.nurseryStart <= m0.nurseryEnd
      requires moved == map[] && shadows == map[] && outside == {} && remembered == [] && withCards == [] && cards == map[]
      modifies this`current, this`hasList, this`start, this`young, this`startRoots, this`image, this`origin
      ensures young == {} && hasList && current == nurseryStart && Between(View(), roots, current, []) && origin == Identity(heap)
    {
      hide Between, Survived, Settled, Identity;
      ghost var done := View();
      AllOld();
      CollectedIsBetween(m0, done, View(), roots);
    }

    method AllOld()
      modifies this`current, this`hasList, this`start, this`young, this`startRoots, this`image, this`origin
      ensures start == heap && young == {} && startRoots == roots && image == map[] && origin == Identity(heap)
      ensures hasList && current == nurseryStart
    {
      hide Identity;
      ghost var home := Identity(heap);
      current, hasList := nurseryStart, true;
      start, young, startRoots, image, origin := heap, {}, roots, map[], home;
    }

    /** The end of a transaction: a collection, and the lists are gone. */
    method EndTransaction() returns (ghost done: Mem)
      requires Valid()
      modifies this
      ensures Valid() && Survived(old(View()), done, roots) && heap == done.heap && young == {} && !hasList && modified == []
    {
      hide StartOk, PlacesOk, FlagsOk, PointersOk, RootsKnown;
      done := Collect();
      hasList, modified := false, [];
    }
  }

  // ----- what holds between two collections

  function Nulls(n: nat): seq<nat> { seq(n, _ => 0) }

  ghost function Identity(heap: Heap): map<nat, nat> { map x | x in heap :: x }

  /** What holds whenever the program runs: an old object without the write barrier
      flag is in the list, and one with it refers to young objects only where a
      marked card says so. */
  ghost predicate Between(m: Mem, roots: seq<nat>, current: nat, list: seq<nat>) {
    && StartOk(m) && m.image == map[] && m.moved == map[] && m.heap == m.start && roots == m.startRoots && RootsKnown(m)
    && PlacesOk(m, current) && FlagsOk(m, list) && PointersOk(m)
  }

  ghost predicate PlacesOk(m: Mem, current: nat) {
    && m.nurseryStart <= current <= m.nurseryEnd
    && (forall o: nat :: o in m.outside <==> o in m.young && !InNursery(m, o))
    && (forall x: nat :: x in m.origin <==> Old(m, x)) && (forall x: nat :: x in m.origin ==> m.origin[x] == x)
    && (forall x: nat :: x in m.heap ==> x < m.top && (InNursery(m, x) ==> x < current))
  }

  ghost predicate FlagsOk(m: Mem, list: seq<nat>) {
    && (forall x: nat :: x in m.remembered || x in m.withCards || x in m.barrier || x in list ==> x in m.origin)
    && (forall x: nat :: x in m.cards ==> x in m.withCards && x in m.barrier)
    && (forall x: nat :: Old(m, x) ==> x in m.barrier || x in list)
  }

  ghost predicate PointersOk(m: Mem) {
    forall x: nat, i: nat {:trigger m.start[x].refs[i]} :: Old(m, x) && i < |m.start[x].refs| && m.start[x].refs[i] in m.young ==>
      x !in m.barrier || Covered(m, x, i)
  }

  lemma BetweenIsReady(m: Mem, roots: seq<nat>, current: nat, list: seq<nat>)
    requires Between(m, roots, current, list)
    ensures MemOk(m) && forall x: nat :: Old(m, x) ==> x in m.origin
  {
    forall x: nat | x in m.origin ensures OriginOk(m, x) && SameObject(m, x) {}
  }

  lemma ReadyWithTodo(m: Mem, roots: seq<nat>, hasList: bool, modified: seq<nat>)
    requires MemOk(m) && m.image == map[] && m.heap == m.start && roots == m.startRoots && RootsKnown(m) && PointersOk(m)
    requires FlagsOk(m, if hasList then m.remembered else modified) && forall x: nat :: x in m.origin <==> Old(m, x)
    ensures Ready(m, roots, if hasList then {} else Elements(modified))
  {
  }

  /** The invariant makes the collection possible. */
  lemma ReadyAlways(m: Mem, roots: seq<nat>, current: nat, hasList: bool, modified: seq<nat>)
    requires Between(m, roots, current, if hasList then m.remembered else modified)
    requires forall x :: x in modified ==> x in m.origin
    ensures (forall x :: x in modified ==> Old(m, x)) && 0 < m.nurseryStart <= m.nurseryEnd
    ensures Ready(m, roots, if hasList then {} else Elements(modified))
  {
    BetweenIsReady(m, roots, current, if hasList then m.remembered else modified);
    ReadyWithTodo(m, roots, hasList, modified);
  }

  /** A new object, young or a shadow, at an address that was not in use. */
  ghost predicate NewObject(m: Mem, m': Mem, p: nat, o: Obj) {
    && p !in m.heap && p != 0 && m'.heap == m.heap[p := o] && m'.start == m'.heap
    && m' == m.(heap := m'.heap, start := m'.start, young := m'.young, outside := m'.outside, top := m'.top, shadows := m'.shadows)
    && (m'.young == m.young + {p} || (m'.young == m.young && m'.shadows.Values == m.shadows.Values + {p}))
    && (m'.young == m.young + {p} ==> m'.shadows == m.shadows)
  }

  lemma NewKnown(m: Mem, m': Mem, p: nat, o: Obj, x: nat)
    requires NewObject(m, m', p, o) && m.heap == m.start && StartOk(m)
    ensures x != p ==> (Known(m', x) <==> Known(m, x)) && (Old(m', x) <==> Old(m, x))
    ensures !Old(m', p) && !Old(m, p)
  {
  }

  lemma NewStart(m: Mem, m': Mem, p: nat, o: Obj)
    requires NewObject(m, m', p, o) && StartOk(m) && m.heap == m.start && m'.shadows == m.shadows && p !in m.shadows.Values
    requires (forall r: nat :: r in o.refs ==> r == 0 || Known(m, r)) && m.nurseryEnd <= m'.top
    ensures StartOk(m')
  {
    forall x: nat ensures x != p ==> (Known(m', x) <==> Known(m, x)) { NewKnown(m, m', p, o, x); }
    forall x: nat, r: nat {:trigger r in m'.start[x].refs} | x in m'.start && r in m'.start[x].refs ensures r == 0 || Known(m', r) {
      assert x != p ==> r in m.start[x].refs;
    }
  }

  lemma NewFlags(m: Mem, m': Mem, p: nat, o: Obj, list: seq<nat>, roots: seq<nat>, current: nat)
    requires NewObject(m, m', p, o) && Between(m, roots, current, list)
    ensures FlagsOk(m', list) && PointersOk(m') && RootsKnown(m')
  {
    hide MoveOk;
    forall x: nat ensures x != p ==> (Old(m', x) <==> Old(m, x)) { NewKnown(m, m', p, o, x); }
    NewKnown(m, m', p, o, p);
    forall y: nat, i: nat {:trigger m'.start[y].refs[i]} | Old(m', y) && i < |m'.start[y].refs| && m'.start[y].refs[i] in m'.young
      ensures y !in m'.barrier || Covered(m', y, i)
    {
      assert m.start[y].refs[i] == m'.start[y].refs[i] && Old(m, y);
      assert m.start[y].refs[i] in m.start[y].refs;
    }
    forall r: nat | r in m'.startRoots ensures r == 0 || Known(m', r) { NewKnown(m, m', p, o, r); }
  }

  lemma NewPlaces(m: Mem, m': Mem, p: nat, o: Obj, roots: seq<nat>, current: nat, current': nat, list: seq<nat>)
    requires NewObject(m, m', p, o) && Between(m, roots, current, list) && current <= current' <= m.nurseryEnd && m.top <= m'.top
    requires p < m'.top && (InNursery(m, p) ==> p < current')
    requires forall x: nat :: x in m'.outside <==> x in m'.young && !InNursery(m, x)
    ensures PlacesOk(m', current')
  {
    forall x: nat ensures x != p ==> (Old(m', x) <==> Old(m, x)) { NewKnown(m, m', p, o, x); }
    NewKnown(m, m', p, o, p);
  }

  lemma Unused(m: Mem, roots: seq<nat>, current: nat, list: seq<nat>, p: nat)
    requires Between(m, roots, current, list) && (p == m.top || (p == current < m.nurseryEnd))
    ensures p !in m.heap && p != 0 && p !in m.shadows.Values && p !in m.young
  {
  }

  lemma AllocatedKeeps(m: Mem, roots: seq<nat>, current: nat, list: seq<nat>, data: int, n: nat)
    requires Between(m, roots, current, list) && current < m.nurseryEnd
    ensures current !in m.heap
    ensures var h := m.heap[current := Obj(data, Nulls(n))];
      Between(m.(heap := h, start := h, young := m.young + {current}), roots, current + 1, list)
  {
    hide StartOk, PlacesOk, FlagsOk, PointersOk, RootsKnown;
    var o := Obj(data, Nulls(n));
    var m' := m.(heap := m.heap[current := o], start := m.heap[current := o], young := m.young + {current});
    Unused(m, roots, current, list, current);
    NewStart(m, m', current, o) by { StartTop(m); }
    NewFlags(m, m', current, o, list, roots, current);
    OutsideIs(m, roots, current, list);
    NewPlaces(m, m', current, o, roots, current, current + 1, list);
  }

  lemma StartTop(m: Mem)
    requires StartOk(m)
    ensures m.nurseryEnd <= m.top && 0 < m.nurseryStart
  {
  }

  lemma OutsideIs(m: Mem, roots: seq<nat>, current: nat, list: seq<nat>)
    requires Between(m, roots, current, list)
    ensures m.nurseryStart <= current <= m.nurseryEnd <= m.top
    ensures forall x: nat :: x in m.outside <==> x in m.young && !InNursery(m, x)
  {
  }

  lemma AllocatedOutsideKeeps(m: Mem, roots: seq<nat>, current: nat, list: seq<nat>, data: int, n: nat)
    requires Between(m, roots, current, list)
    ensures m.top !in m.heap
    ensures var h := m.heap[m.top := Obj(data, Nulls(n))];
      Between(m.(heap := h, start := h, young := m.young + {m.top}, outside := m.outside + {m.top}, top := m.top + 1), roots, current, list)
  {
    hide StartOk, PlacesOk, FlagsOk, PointersOk, RootsKnown;
    var o, p := Obj(data, Nulls(n)), m.top;
    var m' := m.(heap := m.heap[p := o], start := m.heap[p := o], young := m.young + {p}, outside := m.outside + {p}, top := p + 1);
    Unused(m, roots, current, list, p);
    StartTop(m);
    NewStart(m, m', p, o);
    NewFlags(m, m', p, o, list, roots, current);
    OutsideIs(m, roots, current, list);
    NewPlaces(m, m', p, o, roots, current, current, list);
  }

  lemma ShadowStart(m: Mem, m': Mem, p: nat)
    requires StartOk(m) && m.heap == m.start && p in m.young && InNursery(m, p) && p !in m.shadows && p in m.heap && m.top !in m.heap
    requires m' == m.(heap := m.heap[m.top := m.heap[p]], start := m.heap[m.top := m.heap[p]], shadows := m.shadows[p := m.top], top := m.top + 1)
    requires forall x: nat :: x in m.heap ==> x < m.top
    ensures m'.shadows.Values == m.shadows.Values + {m.top} && StartOk(m')
  {
    assert m'.shadows[p] == m.top;
    forall x | x in m.shadows.Values ensures x in m'.shadows.Values {
      var o :| o in m.shadows && m.shadows[o] == x;
      assert m'.shadows[o] == x;
    }
    assert m'.shadows.Values == m.shadows.Values + {m.top};
    forall x: nat, r: nat {:trigger r in m'.start[x].refs} | x in m'.start && r in m'.start[x].refs ensures r == 0 || Known(m', r) {
      assert r in m.start[if x == m.top then p else x].refs;
    }
  }

  lemma ShadowKeeps(m: Mem, roots: seq<nat>, current: nat, list: seq<nat>, p: nat)
    requires Between(m, roots, current, list) && p in m.young && InNursery(m, p) && p !in m.shadows
    ensures p in m.heap && m.top !in m.heap && m.top !in m.young
    ensures var h := m.heap[m.top := m.heap[p]];
      Between(m.(heap := h, start := h, shadows := m.shadows[p := m.top], top := m.top + 1), roots, current, list)
  {
    hide StartOk, PlacesOk, FlagsOk, PointersOk, RootsKnown;
    Unused(m, roots, current, list, m.top);
    YoungIsThere(m, roots, current, list, p);
    var o := m.heap[p];
    var m' := m.(heap := m.heap[m.top := o], start := m.heap[m.top := o], shadows := m.shadows[p := m.top], top := m.top + 1);
    ShadowStart(m, m', p);
    NewFlags(m, m', m.top, o, list, roots, current);
    OutsideIs(m, roots, current, list);
    NewPlaces(m, m', m.top, o, roots, current, current, list);
  }

  lemma YoungIsThere(m: Mem, roots: seq<nat>, current: nat, list: seq<nat>, p: nat)
    requires Between(m, roots, current, list) && p in m.young
    ensures p in m.heap && forall x: nat :: x in m.heap ==> x < m.top
  {
  }

  lemma BetweenPlaces(m: Mem, roots: seq<nat>, current: nat, list: seq<nat>, p: nat)
    requires Between(m, roots, current, list) && p in m.shadows
    ensures m.shadows[p] !in m.young
  {
    assert m.shadows[p] in m.shadows.Values;
  }

  lemma BarrierDropped(m: Mem, m': Mem, roots: seq<nat>, current: nat, list: seq<nat>, list': seq<nat>, x: nat)
    requires Between(m, roots, current, list) && x in m.barrier
    requires m' == m.(barrier := m.barrier - {x}, cards := m.cards - {x}, remembered := m'.remembered)
    requires x in list' && (forall y :: y in list ==> y in list') && (forall y :: y in list' || y in m'.remembered ==> y in list || y in m.remembered || y == x)
    ensures Between(m', roots, current, list')
  {
    forall y: nat, i: nat {:trigger m'.start[y].refs[i]} | Old(m', y) && i < |m'.start[y].refs| && m'.start[y].refs[i] in m'.young
      ensures y !in m'.barrier || Covered(m', y, i)
    {
      assert m.start[y].refs[i] == m'.start[y].refs[i] && Old(m, y);
    }
  }

  lemma BarrierIsOld(m: Mem, roots: seq<nat>, current: nat, list: seq<nat>, x: nat)
    requires Between(m, roots, current, list) && x in m.barrier
    ensures x in m.origin
  {
  }

  lemma CardsStarted(m: Mem, m': Mem, roots: seq<nat>, current: nat, list: seq<nat>, list': seq<nat>, x: nat)
    requires Between(m, roots, current, list) && x in m.barrier && x !in m.cards
    requires m' == m.(cards := m.cards[x := {}], withCards := m.withCards + [x])
    requires (forall y :: y in list ==> y in list') && (forall y :: y in list' ==> y in list || y == x)
    ensures Between(m', roots, current, list')
  {
    forall y: nat, i: nat {:trigger m'.start[y].refs[i]} | Old(m', y) && i < |m'.start[y].refs| && m'.start[y].refs[i] in m'.young
      ensures y !in m'.barrier || Covered(m', y, i)
    {
      assert m.start[y].refs[i] == m'.start[y].refs[i] && Old(m, y);
      assert Covered(m, y, i) ==> Covered(m', y, i);
    }
  }

  lemma CardMarked(m: Mem, m': Mem, roots: seq<nat>, current: nat, list: seq<nat>, x: nat)
    requires Between(m, roots, current, list) && x in m.cards
    requires x in m'.cards && m.cards[x] <= m'.cards[x] && m' == m.(cards := m.cards[x := m'.cards[x]])
    ensures Between(m', roots, current, list)
  {
    forall y: nat, i: nat {:trigger m'.start[y].refs[i]} | Old(m', y) && i < |m'.start[y].refs| && m'.start[y].refs[i] in m'.young
      ensures y !in m'.barrier || Covered(m', y, i)
    {
      assert m.start[y].refs[i] == m'.start[y].refs[i] && Old(m, y);
      assert Covered(m, y, i) ==> Covered(m', y, i);
    }
  }

  /** A store keeps the invariant exactly because of the barrier before it. */
  lemma StoreKeeps(m: Mem, roots: seq<nat>, current: nat, list: seq<nat>, x: nat, i: nat, v: nat)
    requires Between(m, roots, current, list) && Known(m, x) && x in m.heap && i < |m.heap[x].refs| && (v == 0 || Known(m, v))
    requires x in m.barrier ==> Covered(m, x, i)
    ensures var h := m.heap[x := m.heap[x].(refs := m.heap[x].refs[i := v])]; Between(m.(heap := h, start := h), roots, current, list)
  {
    var h := m.heap[x := m.heap[x].(refs := m.heap[x].refs[i := v])];
    var m' := m.(heap := h, start := h);
    assert forall o: nat :: Known(m', o) <==> Known(m, o);
    forall y: nat, j: nat {:trigger m'.start[y].refs[j]} | Old(m', y) && j < |m'.start[y].refs| && m'.start[y].refs[j] in m'.young
      ensures y !in m'.barrier || Covered(m', y, j)
    {
      if y != x || j != i { assert m.start[y].refs[j] == m'.start[y].refs[j] && Old(m, y); }
    }
    forall y: nat, r: nat {:trigger r in m'.start[y].refs} | y in m'.start && r in m'.start[y].refs ensures r == 0 || Known(m', r) {
      if y == x && r != v { assert r in m.start[x].refs; }
    }
  }

  lemma OldStays(m0: Mem, done: Mem, roots: seq<nat>, x: nat)
    requires Survived(m0, done, roots) && Old(m0, x)
    ensures x in done.heap
  {
    assert Survives(m0, done, x, x);
  }

  lemma ModifiedStay(m0: Mem, done: Mem, roots: seq<nat>, modified: seq<nat>)
    requires Survived(m0, done, roots) && forall x :: x in modified ==> Old(m0, x)
    ensures forall x :: x in modified ==> x in done.heap
  {
    forall x | x in modified ensures x in done.heap { OldStays(m0, done, roots, x); }
  }

  /** After a collection everything is as between two collections again. */
  lemma CollectedIsBetween(m0: Mem, done: Mem, m': Mem, roots: seq<nat>)
    requires Survived(m0, done, roots) && Settled(m0, done) && 0 < m0.nurseryStart <= m0.nurseryEnd
    requires m' == done.(start := done.heap, young := {}, startRoots := roots, image := map[], origin := Identity(done.heap))
    requires done.moved == map[] && done.shadows == map[] && done.outside == {} && done.remembered == [] && done.withCards == [] && done.cards == map[]
    ensures Between(m', roots, m'.nurseryStart, [])
  {
    forall x: nat, r: nat | x in m'.start && r in m'.start[x].refs ensures r == 0 || Known(m', r) { RefsSurvive(m0, done, roots, x, r); }
    forall r: nat | r in roots ensures r == 0 || Known(m', r) { AliveIsThere(m0, done, roots, r); }
  }

  lemma RefsSurvive(m0: Mem, done: Mem, roots: seq<nat>, x: nat, r: nat)
    requires Survived(m0, done, roots) && Settled(m0, done) && x in done.heap && r in done.heap[x].refs
    ensures r == 0 || r in done.heap
  {
    if Old(m0, x) {
      assert Survives(m0, done, x, x);
    } else {
      var o :| o in done.image && done.image[o] == x;
      assert Survives(m0, done, o, x);
    }
    AliveIsThere(m0, done, roots, r);
  }

  lemma AliveIsThere(m0: Mem, done: Mem, roots: seq<nat>, r: nat)
    requires Survived(m0, done, roots) && Alive(m0, done, r)
    ensures r == 0 || r in done.heap
  {
    if Old(m0, r) {
      OldStays(m0, done, roots, r);
    } else if r in done.image.Values {
      var o :| o in done.image && done.image[o] == r;
      assert Survives(m0, done, o, r);
    }
  }

  ghost function Elements(s: seq<nat>): set<nat> { set x | x in s }

  ghost predicate RootsKnown(m: Mem) {
    forall r: nat :: r in m.startRoots ==> r == 0 || Known(m, r)
  }

  /** The roots from k on lead to where they should. */
  ghost predicate RootsDone(m: Mem, roots: seq<nat>, k: nat) {
    |roots| == |m.startRoots| && forall j :: k <= j < |roots| ==>
      roots[j] == Image(m, m.startRoots[j]) && (m.startRoots[j] in m.young ==> m.startRoots[j] in m.image)
  }

  lemma RootsStayDone(m: Mem, m': Mem, roots: seq<nat>, k: nat)
    requires MemOk(m') && RootsDone(m, roots, k) && GrownBut(m, m')
    ensures RootsDone(m', roots, k)
  {
    forall j | k <= j < |roots| ensures roots[j] == Image(m', m'.startRoots[j]) {
      if m'.startRoots[j] in m'.image { assert MoveOk(m', m'.startRoots[j]); }
    }
  }

  lemma MoveKeepsCollecting(m0: Mem, m: Mem, p: nat, todo: set<nat>)
    requires Collecting(m, todo) && GrownBut(m0, m) && ToMove(m, p) && p in m.startRoots
    ensures p in m.heap && Collecting(Move(m, p), todo)
    ensures GrownBut(m0, Move(m, p)) && GrownBut(m, Move(m, p))
  {
    MoveKeeps(m, p);
    MoveKeepsScheduled(m, p, todo, NOWHERE);
    RootIsReachable(m, p);
    OnlyReachableMove(m, p);
    MoveGrowsBut(m0, m, p);
  }

  lemma RootIsReachable(m: Mem, p: nat)
    requires StartOk(m) && ToMove(m, p) && p in m.startRoots
    ensures Reachable(m, p)
  {
    assert Known(m, p) && IsPath(m, [p]) && [p][0] == p;
  }

  lemma MoveGrowsBut(m0: Mem, m: Mem, p: nat)
    requires MemOk(m) && GrownBut(m0, m) && ToMove(m, p) && p in m.heap
    ensures GrownBut(m0, Move(m, p)) && GrownBut(m, Move(m, p))
  {
    NewPlace(m, p);
  }

  lemma RootTraced(m0: Mem, m: Mem, m': Mem, roots: seq<nat>, k: nat, todo: set<nat>)
    requires Collecting(m, todo) && GrownBut(m0, m) && RootsKnown(m) && RootsDone(m, roots, k + 1) && k < |roots| && roots[k] == m.startRoots[k]
    requires if ToMove(m, roots[k]) then roots[k] in m.heap && m' == Move(m, roots[k]) else m' == m
    ensures Collecting(m', todo) && GrownBut(m0, m') && RootsKnown(m')
    ensures RootsDone(m', roots[k := Image(m', roots[k])], k)
  {
    hide OnlyReachable, Scheduled, OriginsOk, HeapOk, ListsOk, Flagged;
    var p := roots[k];
    assert p in m.startRoots;
    if ToMove(m, p) { MoveKeepsCollecting(m0, m, p, todo); }
    RootsStayKnown(m, m');
    RootsStayDone(m, m', roots, k + 1);
  }

  lemma TakenNext(m: Mem, todo: set<nat>, todo': set<nat>, x: nat)
    requires Collecting(m, todo) && todo <= todo' + {x} && x in m.origin
    ensures Taken(m, todo', x)
  {
    forall y: nat | y in m.origin ensures SameObject(m, y) {}
    TakenScheduled(m, m, todo, todo', x);
  }

  lemma GrownTwice(m: Mem, m1: Mem, m2: Mem)
    requires GrownBut(m, m1) && Grown(m1, m2.(barrier := m1.barrier))
    ensures GrownBut(m, m2)
  {
  }

  lemma CardsPopped(m: Mem, m': Mem, todo: set<nat>, x: nat)
    requires Collecting(m, todo) && m.withCards != [] && x == m.withCards[|m.withCards| - 1]
    requires m' == m.(withCards := m.withCards[..|m.withCards| - 1])
    ensures Collecting(m', todo) && x in m'.origin
    ensures forall y :: y in m.withCards ==> y == x || y in m'.withCards
  {
    assert m.withCards == m'.withCards + [x];
    SameButFlags(m, m');
    Rescheduled(m, m', todo, NOWHERE, NOWHERE);
  }

  /** When whatever waited still waits. */
  lemma Rescheduled(m: Mem, m': Mem, todo: set<nat>, span: Span, span': Span)
    requires MemOk(m) && Scheduled(m, todo, span)
    requires m' == m.(barrier := m'.barrier, cards := m'.cards, withCards := m'.withCards, remembered := m'.remembered)
    requires forall y: nat :: y in m.origin ==> SameObject(m', y)
    requires forall y: nat, i: nat {:trigger Waiting(m, todo, span, y, i)} ::
      y in m.origin && y in m.heap && i < |m.heap[y].refs| && Waiting(m, todo, span, y, i) ==> Waiting(m', todo, span', y, i)
    ensures Scheduled(m', todo, span')
  {
    forall y: nat | y in m'.origin ensures ScheduledObject(m', todo, span', y) {
      assert ScheduledObject(m, todo, span, y) && SameObject(m', y);
      forall i: nat | i < |m'.heap[y].refs| ensures Resolved(m', y, i) || Waiting(m', todo, span', y, i) {
        assert Resolved(m, y, i) || Waiting(m, todo, span, y, i);
      }
    }
  }

  lemma CardTaken(m: Mem, x: nat, card: nat, todo: set<nat>, start: nat, stop: nat)
    requires Collecting(m, todo) && x in m.cards && x in m.origin && x in m.heap && start == card * CARD_SIZE < |m.heap[x].refs|
    requires stop == if start + CARD_SIZE <= |m.heap[x].refs| then start + CARD_SIZE else |m.heap[x].refs|
    ensures var m' := m.(cards := m.cards[x := m.cards[x] - {card}]);
      Tracing(m', m', x, start, start, stop, todo) && Flagged(m', todo) && SameObject(m', x)
  {
    hide MovesOk, OriginsOk, StartOk, OnlyReachable;
    var m' := m.(cards := m.cards[x := m.cards[x] - {card}]);
    SameButFlags(m, m');
    forall y: nat, i: nat | y in m.origin && y in m.heap && i < |m.heap[y].refs| && Waiting(m, todo, NOWHERE, y, i)
      ensures Waiting(m', todo, Span(x, start, stop), y, i)
    {
    }
    Rescheduled(m, m', todo, NOWHERE, Span(x, start, stop));
  }

  lemma CardTakenGrown(m0: Mem, m: Mem, x: nat, marked: set<nat>)
    requires GrownBut(m0, m)
    ensures GrownBut(m0, m.(cards := m.cards[x := marked]))
  {
  }

  lemma TracedStays(m0: Mem, m: Mem, x: nat, from: nat, i: nat, to: nat, todo: set<nat>)
    requires x in m0.origin && Tracing(m0, m, x, from, i, to, todo)
    ensures x in m.origin && m.cards == m0.cards
  {
  }

  lemma CardTraced(m0: Mem, m1: Mem, m: Mem, x: nat, start: nat, stop: nat, todo: set<nat>)
    requires Flagged(m1, todo) && GrownBut(m0, m1) && x in m1.origin && x in m1.cards && SameObject(m1, x) && Tracing(m1, m, x, start, stop, stop, todo)
    ensures Collecting(m, todo) && GrownBut(m0, m) && x in m.heap && |m.heap[x].refs| == |m1.heap[x].refs| && x in m.cards && m.cards == m1.cards
  {
    hide StartOk, MovesOk, OnlyReachable, Reachable;
    assert m.origin[x] == m1.origin[x] && SameObject(m, x);
    forall y: nat | y in m.origin ensures SameObject(m, y) {}
    Rescheduled(m, m, todo, Span(x, stop, stop), NOWHERE);
  }

  lemma ObjectThere(m: Mem, x: nat, todo: set<nat>)
    requires Collecting(m, todo) && x in m.origin
    ensures x in m.heap
  {
    assert SameObject(m, x);
  }

  /** None of the cards below `card` is marked. */
  ghost predicate CardsBelow(marked: set<nat>, card: nat) {
    forall d :: d in marked ==> d >= card
  }

  lemma CardsDone(m: Mem, x: nat, card: nat, todo: set<nat>)
    requires Collecting(m, todo) && x in m.cards && x in m.origin && x in m.heap
    requires CardsBelow(m.cards[x], card) && card * CARD_SIZE >= |m.heap[x].refs|
    ensures Collecting(m.(cards := m.cards - {x}), todo)
  {
    hide StartOk, MovesOk, OnlyReachable, Reachable, OriginsOk;
    var m' := m.(cards := m.cards - {x});
    SameButFlags(m, m');
    Rescheduled(m, m', todo, NOWHERE, NOWHERE);
  }

  /** Before the collection.  Whatever may refer to a young object is remembered,
      or the reference is covered by a marked card. */
  ghost predicate Ready(m: Mem, roots: seq<nat>, todo: set<nat>) {
    && MemOk(m) && m.image == map[] && m.heap == m.start && roots == m.startRoots && RootsKnown(m)
    && (forall x :: x in m.cards ==> x in m.withCards) && Flagged(m, todo)
    && (forall x: nat, i: nat {:trigger m.start[x].refs[i]} :: Old(m, x) && i < |m.start[x].refs| && m.start[x].refs[i] in m.young ==>
      ((x in todo || x in m.remembered) && x !in m.barrier) || Covered(m, x, i))
  }

  function Relocated(m: Mem, refs: seq<nat>): (r: seq<nat>)
    ensures |r| == |refs| && forall i :: 0 <= i < |r| ==> r[i] == Image(m, refs[i])
  {
    seq(|refs|, i requires 0 <= i < |refs| => Image(m, refs[i]))
  }

  /** What a minor collection promises.  m0 is the memory before and m after. */
  ghost predicate Survived(m0: Mem, m: Mem, roots: seq<nat>) {
    && MovesRight(m0, m) && roots == Relocated(m, m0.startRoots)
    && (forall o: nat :: o in m.image ==> Survives(m0, m, o, m.image[o]))
    && (forall x: nat :: Old(m0, x) ==> Survives(m0, m, x, x))
    && (forall r: nat :: r in roots ==> Alive(m0, m, r))
    && (forall x: nat :: x in m.heap ==> !InNursery(m0, x))
  }

  /** Exactly the young objects that can be reached move, each to a place of its
      own, which is its shadow if it has one. */
  ghost predicate MovesRight(m0: Mem, m: Mem) {
    && (forall o: nat :: o in m.image <==> o in m0.young && Reachable(m0, o))
    && (forall o: nat, p: nat :: o in m.image && p in m.image && m.image[o] == m.image[p] ==> o == p)
    && (forall o: nat :: o in m.image ==> GoodPlace(m0, o, m.image[o]))
  }

  ghost predicate GoodPlace(m0: Mem, o: nat, q: nat) {
    && !Old(m0, q) && q != 0 && !InNursery(m0, q)
    && (o in m0.shadows ==> q == m0.shadows[o]) && (!InNursery(m0, o) ==> q == o)
  }

  /** Object o is at x now: as before, with its references leading to the new
      places, and none of them to where the young objects were. */
  ghost predicate Survives(m0: Mem, m: Mem, o: nat, x: nat) {
    IsCopy(m0, m, o, x) && forall r: nat :: r in m.heap[x].refs ==> Alive(m0, m, r)
  }

  ghost predicate IsCopy(m0: Mem, m: Mem, o: nat, x: nat) {
    o in m0.heap && x in m.heap && m.heap[x] == Obj(m0.heap[o].data, Relocated(m, m0.heap[o].refs))
  }

  ghost predicate Alive(m0: Mem, m: Mem, r: nat) {
    r == 0 || Old(m0, r) || r in m.image.Values
  }

  lemma ReadyToCollect(m: Mem, roots: seq<nat>, todo: set<nat>)
    requires Ready(m, roots, todo)
    ensures Collecting(m, todo)
  {
    forall x: nat | x in m.origin ensures ScheduledObject(m, todo, NOWHERE, x) {
      assert OriginOk(m, x) && SameObject(m, x);
      forall i: nat | i < |m.heap[x].refs| ensures Resolved(m, x, i) || Waiting(m, todo, NOWHERE, x, i) {
        assert m.start[x].refs[i] == m.heap[x].refs[i];
      }
    }
  }

  lemma RootsStayKnown(m0: Mem, m: Mem)
    requires RootsKnown(m0) && GrownBut(m0, m)
    ensures RootsKnown(m)
  {
  }

  /** When nothing waits any more, every object is relocated. */
  lemma NothingWaits(m: Mem, x: nat)
    requires Collecting(m, {}) && m.remembered == [] && m.cards == map[] && x in m.origin
    ensures SameObject(m, x) && m.heap[x] == Obj(m.start[m.origin[x]].data, Relocated(m, m.start[m.origin[x]].refs))
    ensures forall r: nat :: r in m.start[m.origin[x]].refs && r in m.young ==> r in m.image
  {
    assert ScheduledObject(m, {}, NOWHERE, x);
    forall i: nat | i < |m.heap[x].refs| ensures Resolved(m, x, i) && m.heap[x].refs[i] == Image(m, m.start[m.origin[x]].refs[i]) {
      assert !Waiting(m, {}, NOWHERE, x, i);
    }
    forall r: nat | r in m.start[m.origin[x]].refs && r in m.young ensures r in m.image {
      var i: nat :| i < |m.start[m.origin[x]].refs| && m.start[m.origin[x]].refs[i] == r;
      assert Resolved(m, x, i);
    }
    assert m.heap[x].refs == Relocated(m, m.start[m.origin[x]].refs);
  }

  /** The relation between the memory before the collection and the memory when
      everything was traced. */
  ghost predicate AllTraced(m0: Mem, m: Mem, roots: seq<nat>) {
    && Ready0(m0) && Collecting(m, {}) && m.remembered == [] && m.cards == map[] && GrownBut(m0, m) && RootsDone(m, roots, 0)
    && RootsKnown(m)
  }

  ghost predicate Ready0(m: Mem) {
    MemOk(m) && m.image == map[] && m.heap == m.start
  }

  lemma TracedAll(m0: Mem, m1: Mem, m: Mem, roots: seq<nat>)
    requires Ready0(m0) && RootsKnown(m0) && GrownBut(m0, m1) && RootsDone(m1, roots, 0)
    requires GrownBut(m1, m) && Collecting(m, {}) && m.remembered == [] && m.cards == map[]
    ensures AllTraced(m0, m, roots)
  {
    RootsStayDone(m1, m, roots, 0);
  }

  lemma SamePaths(m0: Mem, m: Mem, o: nat)
    requires GrownBut(m0, m)
    ensures Reachable(m0, o) <==> Reachable(m, o)
  {
    if p :| IsPath(m0, p) && p[|p| - 1] == o { assert IsPath(m, p); }
    if p :| IsPath(m, p) && p[|p| - 1] == o { assert IsPath(m0, p); }
  }

  lemma ExactlyReachable(m0: Mem, m: Mem, roots: seq<nat>, o: nat)
    requires AllTraced(m0, m, roots)
    ensures o in m.image <==> o in m0.young && Reachable(m0, o)
  {
    SamePaths(m0, m, o);
    if o in m.image { assert MoveOk(m, o) && Reachable(m, o); }
    if o in m0.young && Reachable(m, o) {
      var p :| IsPath(m, p) && p[|p| - 1] == o;
      forall x: nat, r: nat | (Old(m, x) || x in m.image) && x in m.start && r in m.start[x].refs && r in m.young ensures r in m.image {
        if Old(m, x) { NothingWaits(m, x); } else { assert MoveOk(m, x); NothingWaits(m, m.image[x]); }
      }
      forall r: nat | r in m.startRoots && r in m.young ensures r in m.image {
        var j: nat :| j < |m.startRoots| && m.startRoots[j] == r;
      }
      AllReachableMoved(m, p);
    }
  }

  lemma StillAlive(m0: Mem, m: Mem, roots: seq<nat>, r: nat)
    requires AllTraced(m0, m, roots) && (r == 0 || Known(m, r)) && (r in m.young ==> r in m.image)
    ensures Alive(m0, m, Image(m, r))
  {
    if r in m.image { assert m.image[r] in m.image.Values; }
  }

  /** After the nursery was thrown away, what survived is still there. */
  lemma StaysInPlace(m: Mem, m': Mem, x: nat)
    requires MemOk(m) && x in m.origin && AfterThrow(m, m')
    ensures x in m'.heap && x in m.heap && m'.heap[x] == m.heap[x]
  {
    assert OriginOk(m, x) && SameObject(m, x);
    OriginIsNoDeadShadow(m, x);
    if m.origin[x] in m.image { assert MoveOk(m, m.origin[x]); }
  }

  lemma Kept(m0: Mem, m: Mem, m': Mem, roots: seq<nat>, x: nat)
    requires AllTraced(m0, m, roots) && x in m.origin && AfterThrow(m, m')
    ensures x in m'.heap && m.origin[x] in m0.heap && m'.heap[x] == Obj(m0.heap[m.origin[x]].data, Relocated(m', m0.heap[m.origin[x]].refs))
    ensures forall r: nat :: r in m'.heap[x].refs ==> Alive(m0, m', r)
  {
    hide MemOk, OnlyReachable, Scheduled, AfterThrow, RootsDone, Listed;
    NothingWaits(m, x);
    StaysInPlace(m, m', x);
    SameBookkeeping(m0, m, m', roots, x);
    forall r: nat | r in m'.heap[x].refs ensures Alive(m0, m', r) {
      var i: nat :| i < |m.heap[x].refs| && m.heap[x].refs[i] == r;
      var was := m.start[m.origin[x]].refs[i];
      assert was in m.start[m.origin[x]].refs;
      StartRefs(m, m.origin[x], was);
      StillAlive(m0, m, roots, was);
    }
    assert Relocated(m', m0.heap[m.origin[x]].refs) == Relocated(m, m0.heap[m.origin[x]].refs);
  }

  lemma StartRefs(m: Mem, o: nat, r: nat)
    requires MemOk(m) && o in m.start && r in m.start[o].refs
    ensures r == 0 || Known(m, r)
  {
  }

  lemma SameBookkeeping(m0: Mem, m: Mem, m': Mem, roots: seq<nat>, x: nat)
    requires AllTraced(m0, m, roots) && x in m.origin && AfterThrow(m, m')
    ensures m.start == m0.heap && m'.image == m.image && m.origin[x] in m0.heap && MemOk(m)
  {
    assert SameObject(m, x);
  }

  /** The shadow of an object that did not survive. */
  ghost predicate DeadShadow(m: Mem, x: nat) {
    exists o :: o in m.shadows && m.shadows[o] == x && o !in m.moved
  }

  lemma OriginIsNoDeadShadow(m: Mem, x: nat)
    requires MemOk(m) && x in m.origin
    ensures !DeadShadow(m, x)
  {
    forall o: nat | o in m.shadows && o !in m.moved ensures o !in m.image { assert o in m.image ==> MoveOk(m, o); }
  }

  ghost predicate AfterThrow(m: Mem, m': Mem) {
    && m'.image == m.image && m'.origin == m.origin
    && m'.heap == map x | x in m.heap && !InNursery(m, x) && x !in m.outside && !DeadShadow(m, x) :: m.heap[x]
  }

  lemma ImageSurvives(m0: Mem, m: Mem, m': Mem, roots: seq<nat>, o: nat)
    requires AllTraced(m0, m, roots) && AfterThrow(m, m') && o in m.image
    ensures Survives(m0, m', o, m.image[o])
  {
    assert MoveOk(m, o);
    Kept(m0, m, m', roots, m.image[o]);
  }

  lemma OldSurvives(m0: Mem, m: Mem, m': Mem, roots: seq<nat>, x: nat)
    requires AllTraced(m0, m, roots) && AfterThrow(m, m') && Old(m0, x)
    ensures Survives(m0, m', x, x)
  {
    assert Old(m, x);
    Kept(m0, m, m', roots, x);
  }

  lemma RootsSurvive(m0: Mem, m: Mem, m': Mem, roots: seq<nat>)
    requires AllTraced(m0, m, roots) && AfterThrow(m, m')
    ensures roots == Relocated(m', m0.startRoots) && forall r: nat :: r in roots ==> Alive(m0, m', r)
  {
    forall j | 0 <= j < |roots| ensures roots[j] == Image(m', m0.startRoots[j]) && Alive(m0, m', roots[j]) {
      assert m.startRoots[j] in m.startRoots;
      StillAlive(m0, m, roots, m.startRoots[j]);
    }
  }

  lemma MovedToGoodPlace(m0: Mem, m: Mem, o: nat)
    requires MemOk(m) && GrownBut(m0, m) && o in m.image
    ensures GoodPlace(m0, o, m.image[o]) && m.image[o] in m.origin && m.origin[m.image[o]] == o
  {
    assert MoveOk(m, o);
    OldAtHome(m, m.image[o]);
    assert Old(m0, m.image[o]) <==> Old(m, m.image[o]);
  }

  lemma OldAtHome(m: Mem, x: nat)
    requires OriginsOk(m)
    ensures Old(m, x) ==> x in m.origin && m.origin[x] == x
  {
  }

  lemma MovedRight(m0: Mem, m: Mem, m': Mem, roots: seq<nat>)
    requires AllTraced(m0, m, roots) && m'.image == m.image
    ensures MovesRight(m0, m')
  {
    forall o: nat ensures o in m'.image <==> o in m0.young && Reachable(m0, o) { ExactlyReachable(m0, m, roots, o); }
    forall o: nat | o in m'.image ensures GoodPlace(m0, o, m'.image[o]) { MovedToGoodPlace(m0, m, o); }
    forall o: nat, p: nat | o in m'.image && p in m'.image && m'.image[o] == m'.image[p] ensures o == p {
      MovedToGoodPlace(m0, m, o);
      MovedToGoodPlace(m0, m, p);
    }
  }

  lemma AllSurvive(m0: Mem, m: Mem, m': Mem, roots: seq<nat>)
    requires AllTraced(m0, m, roots) && AfterThrow(m, m')
    ensures forall o: nat :: o in m'.image ==> Survives(m0, m', o, m'.image[o])
    ensures forall x: nat :: Old(m0, x) ==> Survives(m0, m', x, x)
  {
    forall o: nat | o in m'.image ensures Survives(m0, m', o, m'.image[o]) { ImageSurvives(m0, m, m', roots, o); }
    forall x: nat | Old(m0, x) ensures Survives(m0, m', x, x) { OldSurvives(m0, m, m', roots, x); }
  }

  /** What is left is what moved and what was old; it has the write barrier flag. */
  ghost predicate Settled(m0: Mem, m: Mem) {
    && (forall x: nat :: x in m.heap ==> x in m.barrier && 0 < x < m.top && (Old(m0, x) || x in m.image.Values))
    && (forall x: nat :: x in m.barrier ==> x in m.heap) && m.nurseryStart == m0.nurseryStart && m.nurseryEnd == m0.nurseryEnd
    && m.nurseryEnd <= m.top
  }

  lemma OnlyOrigins(m: Mem, x: nat)
    requires MemOk(m) && x in m.heap && !InNursery(m, x) && x !in m.outside && !DeadShadow(m, x)
    ensures x in m.origin
  {
    if x in m.shadows.Values {
      var o :| o in m.shadows && m.shadows[o] == x;
      assert MoveOk(m, o);
    } else if x in m.young {
      assert MoveOk(m, x);
    }
  }

  lemma AllSettled(m0: Mem, m: Mem, m': Mem, roots: seq<nat>)
    requires AllTraced(m0, m, roots) && AfterThrow(m, m') && m'.barrier == m.barrier && m'.top == m.top
    requires m'.nurseryStart == m.nurseryStart && m'.nurseryEnd == m.nurseryEnd
    ensures Settled(m0, m')
  {
    forall x: nat | x in m'.heap ensures x in m'.barrier && 0 < x < m'.top && (Old(m0, x) || x in m'.image.Values) {
      OnlyOrigins(m, x);
      NotNull(m, x);
      assert Old(m, x) <==> Old(m0, x);
    }
    forall x: nat | x in m'.barrier ensures x in m'.heap { StaysInPlace(m, m', x); }
  }

  lemma NotNull(m: Mem, x: nat)
    requires MemOk(m) && x in m.origin
    ensures x != 0 && (Old(m, x) || x in m.image.Values)
  {
    assert OriginOk(m, x);
    if m.origin[x] in m.image { assert MoveOk(m, m.origin[x]); }
  }

  lemma AllSurvived(m0: Mem, m: Mem, m': Mem, roots: seq<nat>)
    requires AllTraced(m0, m, roots) && AfterThrow(m, m')
    ensures Survived(m0, m', roots)
  {
    MovedRight(m0, m, m', roots);
    AllSurvive(m0, m, m', roots);
    RootsSurvive(m0, m, m', roots);
  }

  ghost predicate Fewer(m1: Mem, m2: Mem) {
    && m2.young == m1.young
    && (m2.young - m2.image.Keys < m1.young - m1.image.Keys
        || (m2.young - m2.image.Keys == m1.young - m1.image.Keys && |m2.remembered| < |m1.remembered|))
  }

  ghost const NOWHERE: Span := Span(0, 0, 0)

  ghost predicate Collecting(m: Mem, todo: set<nat>) {
    MemOk(m) && OnlyReachable(m) && Scheduled(m, todo, NOWHERE) && Flagged(m, todo)
  }

  /** Like Grown, but the lists and flags may change. */
  ghost predicate GrownBut(m: Mem, m': Mem) {
    && (forall o: nat :: o in m.image ==> o in m'.image && m'.image[o] == m.image[o])
    && (forall x: nat :: x in m.origin ==> x in m'.origin && m'.origin[x] == m.origin[x])
    && m'.start == m.start && m'.young == m.young && m'.shadows == m.shadows && m'.startRoots == m.startRoots
    && m'.nurseryStart == m.nurseryStart && m'.nurseryEnd == m.nurseryEnd
  }

  /** Object x was taken out of the lists to be looked at now. */
  ghost predicate Taken(m: Mem, todo: set<nat>, x: nat) {
    && MemOk(m) && OnlyReachable(m) && x in m.origin && SameObject(m, x) && FlaggedBut(m, todo, x)
    && Scheduled(m, todo, if x in m.barrier then NOWHERE else Span(x, 0, |m.heap[x].refs|))
  }

  lemma TakenTracing(m: Mem, todo: set<nat>, x: nat)
    requires Taken(m, todo, x) && x !in m.barrier
    ensures Tracing(m, m, x, 0, 0, |m.heap[x].refs|, todo)
  {
  }

  lemma BarrierKeeps(m0: Mem, m: Mem, x: nat, todo: set<nat>)
    requires FlaggedBut(m0, todo, x) && x in m0.heap && Tracing(m0, m, x, 0, |m0.heap[x].refs|, |m0.heap[x].refs|, todo) && SameObject(m0, x) && x in m0.origin
    ensures Collecting(m.(barrier := m.barrier + {x}), todo)
  {
    hide MovesOk, OriginsOk, HeapOk, StartOk;
    var m' := m.(barrier := m.barrier + {x});
    SameButFlags(m, m');
    forall y: nat | y in m'.origin ensures ScheduledObject(m', todo, NOWHERE, y) { BarrierKeepsObject(m0, m, x, todo, y); }
  }

  lemma BarrierKeepsObject(m0: Mem, m: Mem, x: nat, todo: set<nat>, y: nat)
    requires x in m0.heap && Tracing(m0, m, x, 0, |m0.heap[x].refs|, |m0.heap[x].refs|, todo) && SameObject(m0, x) && x in m0.origin
    requires var m' := m.(barrier := m.barrier + {x}); y in m.origin && SameObject(m', y)
    ensures ScheduledObject(m.(barrier := m.barrier + {x}), todo, NOWHERE, y)
  {
    var m' := m.(barrier := m.barrier + {x});
    var n := |m0.heap[x].refs|;
    assert |m.heap[x].refs| == n;
    assert ScheduledObject(m, todo, Span(x, n, n), y);
    forall i: nat | i < |m'.heap[y].refs| ensures Resolved(m', y, i) || Waiting(m', todo, NOWHERE, y, i) {
      assert Resolved(m, y, i) || Waiting(m, todo, Span(x, n, n), y, i);
    }
  }

  /** Flags, cards and lists do not matter for where things are. */
  lemma SameButFlags(m: Mem, m': Mem)
    requires MemOk(m) && OnlyReachable(m) && ListsOk(m')
    requires m' == m.(barrier := m'.barrier, cards := m'.cards, withCards := m'.withCards, remembered := m'.remembered)
    ensures MemOk(m') && OnlyReachable(m')
    ensures forall y: nat :: y in m.origin ==> SameObject(m', y)
  {
    SameStart(m, m');
    SameMoves(m, m');
    SameOrigins(m, m');
    SameHeap(m, m');
    SameReachable(m, m');
  }

  lemma SameStart(m: Mem, m': Mem)
    requires StartOk(m)
    requires m' == m.(barrier := m'.barrier, cards := m'.cards, withCards := m'.withCards, remembered := m'.remembered)
    ensures StartOk(m')
  {
  }

  lemma SameMoves(m: Mem, m': Mem)
    requires MovesOk(m)
    requires m' == m.(barrier := m'.barrier, cards := m'.cards, withCards := m'.withCards, remembered := m'.remembered)
    ensures MovesOk(m')
  {
    forall o: nat | o in m'.image ensures MoveOk(m', o) { assert MoveOk(m, o); }
  }

  lemma SameHeap(m: Mem, m': Mem)
    requires HeapOk(m)
    requires m' == m.(barrier := m'.barrier, cards := m'.cards, withCards := m'.withCards, remembered := m'.remembered)
    ensures HeapOk(m') && forall y: nat :: y in m.origin ==> SameObject(m', y)
  {
    forall y: nat | y in m'.origin ensures SameObject(m', y) { assert SameObject(m, y); }
  }

  lemma SameOrigins(m: Mem, m': Mem)
    requires OriginsOk(m)
    requires m' == m.(barrier := m'.barrier, cards := m'.cards, withCards := m'.withCards, remembered := m'.remembered)
    ensures OriginsOk(m')
  {
    forall y: nat | y in m'.origin ensures OriginOk(m', y) { assert OriginOk(m, y); }
    forall y: nat | Old(m', y) ensures y in m'.origin && m'.origin[y] == y { assert Old(m, y); }
  }

  lemma SameReachable(m: Mem, m': Mem)
    requires OnlyReachable(m)
    requires m' == m.(barrier := m'.barrier, cards := m'.cards, withCards := m'.withCards, remembered := m'.remembered)
    ensures OnlyReachable(m')
  {
    forall o: nat | o in m'.image ensures Reachable(m', o) {
      assert Reachable(m, o);
      var q :| IsPath(m, q) && q[|q| - 1] == o;
      assert IsPath(m', q);
    }
  }

  lemma Popped(m: Mem, m': Mem, x: nat)
    requires Collecting(m, {}) && m.remembered != [] && x == m.remembered[|m.remembered| - 1]
    requires m' == m.(remembered := m.remembered[..|m.remembered| - 1])
    ensures Taken(m', {}, x)
  {
    assert m.remembered == m'.remembered + [x];
    SameButFlags(m, m');
    TakenScheduled(m, m', {}, {}, x);
  }

  lemma TakenScheduled(m: Mem, m': Mem, todo: set<nat>, todo': set<nat>, x: nat)
    requires MemOk(m) && Scheduled(m, todo, NOWHERE) && x in m.origin && m' == m.(remembered := m'.remembered)
    requires forall y: nat :: y in m.origin ==> SameObject(m', y)
    requires forall y: nat :: y in todo || y in m.remembered ==> y == x || y in todo' || y in m'.remembered
    ensures x in m'.heap && Scheduled(m', todo', if x in m'.barrier then NOWHERE else Span(x, 0, |m'.heap[x].refs|))
  {
    assert SameObject(m', x);
    var span := if x in m'.barrier then NOWHERE else Span(x, 0, |m'.heap[x].refs|);
    forall y: nat | y in m'.origin ensures ScheduledObject(m', todo', span, y) {
      assert ScheduledObject(m, todo, NOWHERE, y) && SameObject(m', y);
      forall i: nat | i < |m'.heap[y].refs| ensures Resolved(m', y, i) || Waiting(m', todo', span, y, i) {
        assert Resolved(m, y, i) || Waiting(m, todo, NOWHERE, y, i);
      }
    }
  }

  lemma StillFewer(m: Mem, m1: Mem, m2: Mem)
    requires GrownBut(m, m1) && m1.remembered != [] && MemOk(m2)
    requires Grown(m1.(remembered := m1.remembered[..|m1.remembered| - 1]), m2.(barrier := m1.barrier))
    ensures GrownBut(m, m2) && Fewer(m1, m2)
  {
    assert m1.image.Keys <= m2.image.Keys;
    if m2.image.Keys != m1.image.Keys {
      var o :| o in m2.image.Keys && o !in m1.image.Keys;
      assert MoveOk(m2, o);
    }
  }

  /** In the middle of tracing the references from `from` to `to` of x: those
      below i are done. */
  ghost predicate Tracing(m0: Mem, m: Mem, x: nat, from: nat, i: nat, to: nat, todo: set<nat>) {
    && MemOk(m) && OnlyReachable(m) && Grown(m0, m) && x in m.origin && SameObject(m, x) && to <= |m.heap[x].refs|
    && Scheduled(m, todo, Span(x, i, to)) && TracedIn(m, x, from, i)
  }

  lemma TracingMoves(m0: Mem, m: Mem, x: nat, from: nat, i: nat, to: nat, todo: set<nat>)
    requires Tracing(m0, m, x, from, i, to, todo) && from <= i < to && ToMove(m, m.heap[x].refs[i])
    ensures m.heap[x].refs[i] in m.heap && Tracing(m0, Move(m, m.heap[x].refs[i]), x, from, i, to, todo)
    ensures m.heap[x].refs[i] == m.start[m.origin[x]].refs[i]
  {
    var p := m.heap[x].refs[i];
    SameTarget(m, x, i);
    MoveKeeps(m, p);
    MoveKeepsObject(m, p, x);
    MoveKeepsScheduled(m, p, todo, Span(x, i, to));
    MoveKeepsTraced(m, p, x, from, i);
    MoveKeepsReachable(m, x, p);
    MoveGrows(m0, m, p);
    MoveKeepsSize(m, p, x);
  }

  lemma MoveKeepsSize(m: Mem, p: nat, x: nat)
    requires MemOk(m) && ToMove(m, p) && p in m.heap && x in m.origin && SameObject(m, x)
    ensures x in Move(m, p).heap && Move(m, p).heap[x] == m.heap[x]
  {
    NewPlace(m, p);
  }

  lemma MoveGrows(m0: Mem, m: Mem, p: nat)
    requires MemOk(m) && ToMove(m, p) && p in m.heap && Grown(m0, m)
    ensures Grown(m0, Move(m, p))
  {
    NewPlace(m, p);
    assert p in Move(m, p).image.Keys && p !in m0.image.Keys;
  }

  lemma MoveKeepsReachable(m: Mem, x: nat, p: nat)
    requires MemOk(m) && OnlyReachable(m) && x in m.origin && ToMove(m, p) && p in m.heap
    requires m.origin[x] in m.start && p in m.start[m.origin[x]].refs
    ensures OnlyReachable(Move(m, p))
  {
    NewPlace(m, p);
    ReachableOrigin(m, x);
    ReachableNext(m, m.origin[x], p);
    OnlyReachableMove(m, p);
  }

  lemma TracingSets(m0: Mem, m: Mem, x: nat, from: nat, i: nat, to: nat, todo: set<nat>)
    requires Tracing(m0, m, x, from, i, to, todo) && from <= i < to
    requires var r := m.start[m.origin[x]].refs[i]; r in m.young ==> r in m.image
    ensures Tracing(m0, SetRef(m, x, i, Image(m, m.start[m.origin[x]].refs[i])), x, from, i + 1, to, todo)
  {
    SetRefKeeps(m, x, i);
    SetRefKeepsObject(m, x, i, x);
    SetRefKeepsScheduled(m, x, i, todo, Span(x, i, to));
    SetRefKeepsTraced(m, x, i, from);
    SetRefKeepsReachable(m, x, i);
    SetRefGrows(m0, m, x, i, Image(m, m.start[m.origin[x]].refs[i]));
  }

  lemma SetRefGrows(m0: Mem, m: Mem, x: nat, i: nat, v: nat)
    requires Grown(m0, m) && x in m.heap && i < |m.heap[x].refs|
    ensures Grown(m0, SetRef(m, x, i, v))
    ensures x in SetRef(m, x, i, v).heap && |SetRef(m, x, i, v).heap[x].refs| == |m.heap[x].refs|
  {
  }

  lemma SetRefKeepsReachable(m: Mem, x: nat, i: nat)
    requires OnlyReachable(m) && x in m.heap && i < |m.heap[x].refs| && x in m.origin && m.origin[x] in m.start && i < |m.start[m.origin[x]].refs|
    ensures OnlyReachable(SetRef(m, x, i, Image(m, m.start[m.origin[x]].refs[i])))
  {
    var m' := SetRef(m, x, i, Image(m, m.start[m.origin[x]].refs[i]));
    forall o: nat | o in m'.image ensures Reachable(m', o) {
      assert Reachable(m, o);
      var q :| IsPath(m, q) && q[|q| - 1] == o;
      assert IsPath(m', q);
    }
  }

  /** After the pointer in reference i of x was traced. */
  lemma TracedPointer(m0: Mem, m: Mem, m': Mem, x: nat, from: nat, i: nat, to: nat, todo: set<nat>)
    requires Tracing(m0, m, x, from, i, to, todo) && from <= i < to
    requires var p := m.heap[x].refs[i]; if ToMove(m, p) then p in m.heap && m' == Move(m, p) else m' == m
    ensures x in m'.heap && i < |m'.heap[x].refs|
    ensures Tracing(m0, SetRef(m', x, i, Image(m', m.heap[x].refs[i])), x, from, i + 1, to, todo)
  {
    var p, r := m.heap[x].refs[i], m.start[m.origin[x]].refs[i];
    SameTarget(m, x, i);
    if ToMove(m, p) { TracingMoves(m0, m, x, from, i, to, todo); }
    TracingSets(m0, m', x, from, i, to, todo);
  }

  /** Tracing the current value or the original value of a reference gives the
      same. */
  lemma SameTarget(m: Mem, x: nat, i: nat)
    requires MemOk(m) && x in m.origin && SameObject(m, x) && i < |m.heap[x].refs|
    ensures var p, r := m.heap[x].refs[i], m.start[m.origin[x]].refs[i];
      if ToMove(m, p) then p == r && p in m.heap && p in Move(m, p).image && Move(m, p).origin == m.origin[Target(m, p) := p] && Target(m, p) !in m.origin
      else Image(m, p) == Image(m, r) && (r in m.young ==> r in m.image)
  {
    RefIsPointer(m, x, i);
    var p := m.heap[x].refs[i];
    if ToMove(m, p) { NewPlace(m, p); }
  }

  lemma OnlyReachableMove(m: Mem, p: nat)
    requires OnlyReachable(m) && Reachable(m, p) && p in m.heap
    ensures OnlyReachable(Move(m, p))
  {
    var m' := Move(m, p);
    forall o: nat | o in m'.image ensures Reachable(m', o) {
      assert Reachable(m, o);
      var q :| IsPath(m, q) && q[|q| - 1] == o;
      assert IsPath(m', q);
    }
  }

  lemma PointerCases(m: Mem, p: nat)
    requires MemOk(m) && Pointer(m, p)
    ensures p == 0 ==> !ToMove(m, p) && Image(m, p) == p
    ensures InNursery(m, p) ==> p in m.young && (p in m.moved <==> p in m.image) && (p in m.moved ==> m.moved[p] == m.image[p])
    ensures !InNursery(m, p) ==> (p in m.outside <==> ToMove(m, p)) && Image(m, p) == p
    ensures ToMove(m, p) ==> p in m.heap && (p in m.shadows ==> m.shadows[p] < m.top)
  {
    if p in m.origin {
      assert OriginOk(m, p);
      if m.origin[p] in m.image { assert MoveOk(m, m.origin[p]); }
    }
    if p in m.image { assert MoveOk(m, p); }
    if p in m.shadows { assert m.shadows[p] in m.heap; }
  }
}
