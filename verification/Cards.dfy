/** Card marking within one transaction: which bytes of a large object the write
    barriers let the program change, and which bytes the commit copies
    (write_slowpath_common and _card_wise_synchronize_object_now in core.c,
    _reset_object_cards and _trace_card_object in nursery.c).

    The cards of an object are numbered from 1; entry d of `cards` is the lock byte
    of card d, entry 0 is not used.  Card d has the bytes from b[d] up to b[d + 1];
    the object begins at b[0]. */
module Cards {
  import opened Wrappers

  const CARD_SIZE: nat := 32
  const CARD_CLEAR: nat := 0
  const CARD_MARKED: nat := 100
  const CARD_MARKED_OLD: nat := 101

  ghost predicate Bounds(cards: seq<nat>, b: seq<nat>, end: nat) {
    && |cards| > 1 && |b| == |cards| + 1
    && (forall c, d :: 0 <= c <= d < |b| ==> b[c] <= b[d]) && forall c :: 0 <= c < |b| ==> b[c] <= end
  }

  predicate Within(lo: nat, a: nat, hi: nat) { lo <= a < hi }

  ghost function Range(lo: nat, hi: nat): set<nat> { set a: nat | lo <= a < hi && Within(lo, a, hi) }

  predicate IsMarked(cards: seq<nat>, d: nat) { 0 < d < |cards| && cards[d] == CARD_MARKED_OLD }

  /** The bytes of the marked cards before card upTo. */
  ghost function MarkedBytes(cards: seq<nat>, b: seq<nat>, upTo: nat): set<nat>
    requires upTo < |b|
  {
    if upTo <= 1 then {}
    else MarkedBytes(cards, b, upTo - 1) + if IsMarked(cards, upTo - 1) then Range(b[upTo - 1], b[upTo]) else {}
  }

  ghost predicate SomeMarked(cards: seq<nat>) { exists d :: IsMarked(cards, d) }

  /** The heuristic of the commit. */
  predicate LooksFullyMarked(cards: seq<nat>)
    requires |cards| > 1
  {
    var last := |cards| - 1;
    cards[1] == CARD_MARKED_OLD && cards[last] == CARD_MARKED_OLD && cards[last / 2 + 1] == CARD_MARKED_OLD
  }

  /** The bytes that the commit copies. */
  ghost function Copied(cards: seq<nat>, b: seq<nat>, end: nat): set<nat>
    requires |cards| > 1 && |b| == |cards| + 1
  {
    if LooksFullyMarked(cards) || !SomeMarked(cards) then Range(b[0], end) else MarkedBytes(cards, b, |cards|)
  }

  /** Neighbouring marked cards make one stretch. */
  lemma {:induction false} MarkedStretch(cards: seq<nat>, b: seq<nat>, first: nat, next: nat, end: nat)
    requires Bounds(cards, b, end) && 0 < first <= next <= |cards| && forall d :: first <= d < next ==> IsMarked(cards, d)
    ensures MarkedBytes(cards, b, next) == MarkedBytes(cards, b, first) + Range(b[first], b[next])
  {
    if first < next {
      MarkedStretch(cards, b, first, next - 1, end);
      assert Range(b[first], b[next]) == Range(b[first], b[next - 1]) + Range(b[next - 1], b[next]);
    }
  }

  lemma {:induction false} NoneMarked(cards: seq<nat>, b: seq<nat>, upTo: nat)
    requires upTo < |b| && forall d :: 0 < d < upTo ==> !IsMarked(cards, d)
    ensures MarkedBytes(cards, b, upTo) == {}
  {
    if upTo > 1 { NoneMarked(cards, b, upTo - 1); }
  }

  lemma {:induction false} InMarked(cards: seq<nat>, b: seq<nat>, upTo: nat, a: nat)
    requires upTo < |b|
    ensures a in MarkedBytes(cards, b, upTo) <==> exists d :: 0 < d < upTo && IsMarked(cards, d) && b[d] <= a < b[d + 1]
  {
    if upTo > 1 {
      InMarked(cards, b, upTo - 1, a);
      if IsMarked(cards, upTo - 1) && b[upTo - 1] <= a < b[upTo] { assert 0 < upTo - 1 < upTo; }
    }
  }

  lemma CopiedInside(cards: seq<nat>, b: seq<nat>, end: nat)
    requires Bounds(cards, b, end)
    ensures Copied(cards, b, end) <= Range(b[0], end)
  {
    forall a | a in MarkedBytes(cards, b, |cards|) ensures b[0] <= a < end { InMarked(cards, b, |cards|, a); }
  }

  /** Entry 0 does not matter. */
  lemma {:induction false} SameMarkedBytes(cards: seq<nat>, cards': seq<nat>, b: seq<nat>, upTo: nat)
    requires |cards| == |cards'| && upTo < |b| && forall d :: 0 < d < |cards| ==> cards'[d] == cards[d]
    ensures MarkedBytes(cards, b, upTo) == MarkedBytes(cards', b, upTo)
  {
    if upTo > 1 { SameMarkedBytes(cards, cards', b, upTo - 1); }
  }

  lemma SameMarked(cards: seq<nat>, cards': seq<nat>, b: seq<nat>, end: nat)
    requires |cards| == |cards'| > 1 && |b| == |cards| + 1 && forall d :: 0 < d < |cards| ==> cards'[d] == cards[d]
    ensures Copied(cards, b, end) == Copied(cards', b, end)
  {
    SameMarkedBytes(cards, cards', b, |cards|);
    forall d ensures IsMarked(cards, d) <==> IsMarked(cards', d) {}
  }

  // ----- the write barriers of one transaction

  /** An object that the transaction has write-locked.  `listed` says that it is in
      old_objects_with_cards.  `may` is the set of bytes that the program may have
      changed so far; `whole` says that the object once passed the full write barrier
      while it had no cards set. */
  datatype Written = Written(writeBarrier: bool, cardsSet: bool, listed: bool, cards: seq<nat>, whole: bool, may: set<nat>)

  /** stm_write, stm_write_card, a minor collection, and a major collection that finds
      nothing to do for a minor one in this segment (otherwise it makes one first);
      `traced` says that the transaction had a minor collection before. */
  datatype Event = Full | Card(index: nat) | Collect | Major(traced: bool)

  function AllOld(n: nat): seq<nat> { seq(n, _ => CARD_MARKED_OLD) }

  /** CARD_MARKED becomes CARD_MARKED_OLD. */
  function Aged(cards: seq<nat>): (r: seq<nat>)
    ensures |r| == |cards|
  {
    seq(|cards|, d requires 0 <= d < |cards| => if cards[d] == CARD_MARKED then CARD_MARKED_OLD else cards[d])
  }

  /** The card exists; a major collection asserts that what is listed has CARDS_SET. */
  predicate Fits(w: Written, e: Event) {
    && (e.Card? ==> e.index / CARD_SIZE + 1 < |w.cards|)
    && (e.Major? && w.listed ==> w.cardsSet)
  }

  ghost function After(w: Written, e: Event, b: seq<nat>, end: nat): (w': Written)
    requires Fits(w, e) && |w.cards| > 1 && |b| == |w.cards| + 1
    ensures |w'.cards| == |w.cards|
  {
    match e
    case Full =>
      if !w.writeBarrier then w
      else if w.cardsSet then w.(writeBarrier := false, cardsSet := false, cards := AllOld(|w.cards|), may := Range(b[0], end))
      else w.(writeBarrier := false, whole := true, may := Range(b[0], end))
    case Card(index) =>
      if !w.writeBarrier then w
      else
        var c := index / CARD_SIZE + 1;
        w.(cardsSet := true, listed := true, cards := w.cards[c := CARD_MARKED], may := w.may + Range(b[c], b[c + 1]))
    case Collect => w.(writeBarrier := true, cardsSet := false, listed := false, cards := Aged(w.cards))
    case Major(traced) =>
      w.(writeBarrier := w.writeBarrier || traced, cardsSet := false, listed := false, cards := if w.listed then Aged(w.cards) else w.cards)
  }

  /** When the transaction takes the write lock. */
  function Locked(n: nat): Written { Written(true, false, false, seq(n, _ => CARD_CLEAR), false, {}) }

  /** What a sequence of events makes of it; None if an assertion fails. */
  ghost function AfterAll(n: nat, events: seq<Event>, b: seq<nat>, end: nat): (r: Option<Written>)
    requires n > 1 && |b| == n + 1
    ensures r.Some? ==> |r.value.cards| == n
  {
    if events == [] then Some(Locked(n))
    else
      var last := events[|events| - 1];
      match AfterAll(n, events[..|events| - 1], b, end)
      case None => None
      case Some(w) => if Fits(w, last) then Some(After(w, last, b, end)) else None
  }

  /** What the program may store to: anything if it passed the full barrier since the
      last minor collection, otherwise the marked cards. */
  ghost predicate MayStore(w: Written, b: seq<nat>, a: nat)
    requires |b| == |w.cards| + 1
  {
    !w.writeBarrier || exists d :: 0 < d < |w.cards| && w.cards[d] == CARD_MARKED && b[d] <= a < b[d + 1]
  }

  /** What the barriers keep: the bytes that may have changed are in marked cards,
      unless everything may have changed, and then either all cards are marked or
      `whole` says so; and the program stores nowhere else. */
  ghost predicate BarrierOk(w: Written, b: seq<nat>, end: nat)
    requires |w.cards| > 1 && |b| == |w.cards| + 1
  {
    && (forall d :: 0 < d < |w.cards| ==> w.cards[d] in {CARD_CLEAR, CARD_MARKED, CARD_MARKED_OLD})
    && (w.whole ==> w.may == Range(b[0], end))
    && (!w.whole ==> (w.may == Range(b[0], end) && AllSet(w.cards)) || forall a :: a in w.may ==> InSetCard(w.cards, b, a))
    && (w.cardsSet <==> w.listed && w.writeBarrier)
    && (!w.cardsSet ==> forall d :: 0 < d < |w.cards| ==> w.cards[d] != CARD_MARKED)
    && (!w.writeBarrier ==> w.may == Range(b[0], end))
    && (forall d :: 0 < d < |w.cards| && w.cards[d] == CARD_MARKED ==> Range(b[d], b[d + 1]) <= w.may)
  }

  ghost predicate AllSet(cards: seq<nat>) { forall d :: 0 < d < |cards| ==> cards[d] != CARD_CLEAR }

  ghost predicate InSetCard(cards: seq<nat>, b: seq<nat>, a: nat)
    requires |b| == |cards| + 1
  {
    exists d :: 0 < d < |cards| && cards[d] != CARD_CLEAR && b[d] <= a < b[d + 1]
  }

  lemma StoresWithin(w: Written, b: seq<nat>, end: nat, a: nat)
    requires |w.cards| > 1 && |b| == |w.cards| + 1 && BarrierOk(w, b, end) && b[0] <= a < end && MayStore(w, b, a)
    ensures a in w.may
  {
    if w.writeBarrier {
      var d :| 0 < d < |w.cards| && w.cards[d] == CARD_MARKED && b[d] <= a < b[d + 1];
      assert a in Range(b[d], b[d + 1]);
    }
  }

  lemma LockedOk(n: nat, b: seq<nat>, end: nat)
    requires n > 1 && |b| == n + 1
    ensures BarrierOk(Locked(n), b, end)
  {
  }

  lemma StillSet(w: Written, w': Written, b: seq<nat>)
    requires |w'.cards| == |w.cards| && |b| == |w.cards| + 1
    requires forall d :: 0 < d < |w.cards| && w.cards[d] != CARD_CLEAR ==> w'.cards[d] != CARD_CLEAR
    ensures forall a :: InSetCard(w.cards, b, a) ==> InSetCard(w'.cards, b, a)
  {
    forall a | InSetCard(w.cards, b, a) ensures InSetCard(w'.cards, b, a) {
      var d :| 0 < d < |w.cards| && w.cards[d] != CARD_CLEAR && b[d] <= a < b[d + 1];
      assert w'.cards[d] != CARD_CLEAR;
    }
  }

  lemma CardKeeps(w: Written, index: nat, b: seq<nat>, end: nat)
    requires Bounds(w.cards, b, end) && BarrierOk(w, b, end) && Fits(w, Card(index))
    ensures BarrierOk(After(w, Card(index), b, end), b, end) && w.may <= After(w, Card(index), b, end).may
  {
    var w', c := After(w, Card(index), b, end), index / CARD_SIZE + 1;
    if w.writeBarrier {
      StillSet(w, w', b);
      if w.may == Range(b[0], end) { assert w'.may == w.may; }
      forall a | a in Range(b[c], b[c + 1]) ensures InSetCard(w'.cards, b, a) { assert w'.cards[c] != CARD_CLEAR; }
    }
  }

  lemma EventKeeps(w: Written, e: Event, b: seq<nat>, end: nat)
    requires Bounds(w.cards, b, end) && BarrierOk(w, b, end) && Fits(w, e)
    ensures BarrierOk(After(w, e, b, end), b, end) && w.may <= After(w, e, b, end).may
  {
    MayInside(w, b, end);
    if e.Card? { CardKeeps(w, e.index, b, end); } else { StillSet(w, After(w, e, b, end), b); }
  }

  lemma {:induction false} EventsKeep(n: nat, events: seq<Event>, b: seq<nat>, end: nat)
    requires n > 1 && Bounds(Locked(n).cards, b, end) && AfterAll(n, events, b, end).Some?
    ensures BarrierOk(AfterAll(n, events, b, end).value, b, end) && Bounds(AfterAll(n, events, b, end).value.cards, b, end)
  {
    if events == [] {
      LockedOk(n, b, end);
    } else {
      EventsKeep(n, events[..|events| - 1], b, end);
      EventKeeps(AfterAll(n, events[..|events| - 1], b, end).value, events[|events| - 1], b, end);
    }
  }

  /** Each card has at least one byte. */
  ghost predicate NoEmptyCard(b: seq<nat>) { forall d :: 0 < d < |b| - 1 ==> b[d] < b[d + 1] }

  /** The commit, after its minor collection, may leave something out. */
  ghost predicate MayLose(w: Written)
    requires |w.cards| > 1
  {
    w.whole && SomeMarked(w.cards) && !LooksFullyMarked(w.cards)
  }

  /** Does the commit, after its minor collection, copy whatever the program may have
      changed?  Exactly if it is not the case that the object passed the full write
      barrier without cards set, and then had a card marked as well, without looking
      fully marked.  (So "only marked cards can differ" is not kept by the barriers:
      LosesChanges.) */
  lemma CommitCopiesAll(n: nat, events: seq<Event>, b: seq<nat>, end: nat)
    requires n > 1 && Bounds(Locked(n).cards, b, end) && NoEmptyCard(b) && AfterAll(n, events, b, end).Some?
    ensures var w := After(AfterAll(n, events, b, end).value, Collect, b, end);
      w.may <= Copied(w.cards, b, end) <==> !MayLose(w)
  {
    EventsKeep(n, events, b, end);
    CollectedCopies(AfterAll(n, events, b, end).value, b, end);
  }

  lemma CollectedCopies(w0: Written, b: seq<nat>, end: nat)
    requires Bounds(w0.cards, b, end) && NoEmptyCard(b) && BarrierOk(w0, b, end)
    ensures var w := After(w0, Collect, b, end); w.may <= Copied(w.cards, b, end) <==> !MayLose(w)
  {
    var n, w := |w0.cards|, After(w0, Collect, b, end);
    EventKeeps(w0, Collect, b, end);
    AllSetLooks(w.cards);
    MayInside(w, b, end);
    if w.whole {
      if SomeMarked(w.cards) && !LooksFullyMarked(w.cards) {
        SomethingMissing(w.cards, b, end);
      }
    } else if SomeMarked(w.cards) && !LooksFullyMarked(w.cards) {
      forall a | a in w.may ensures a in MarkedBytes(w.cards, b, n) {
        assert InSetCard(w.cards, b, a);
        InMarked(w.cards, b, n, a);
        var d :| 0 < d < n && w.cards[d] != CARD_CLEAR && b[d] <= a < b[d + 1];
        assert IsMarked(w.cards, d);
      }
    }
  }

  /** A major collection fails its assertion exactly if the object was listed for its
      cards and passed the full barrier after that, with no collection since. */
  lemma MajorFailsExactly(n: nat, events: seq<Event>, traced: bool, b: seq<nat>, end: nat)
    requires n > 1 && Bounds(Locked(n).cards, b, end) && AfterAll(n, events, b, end).Some?
    ensures var w := AfterAll(n, events, b, end).value;
      AfterAll(n, events + [Major(traced)], b, end).None? <==> w.listed && !w.writeBarrier
  {
    EventsKeep(n, events, b, end);
    assert (events + [Major(traced)])[..|events|] == events;
  }

  lemma AllSetLooks(cards: seq<nat>)
    requires |cards| > 1 && forall d :: 0 < d < |cards| ==> cards[d] in {CARD_CLEAR, CARD_MARKED_OLD}
    ensures AllSet(cards) ==> LooksFullyMarked(cards)
  {
  }

  lemma MayInside(w: Written, b: seq<nat>, end: nat)
    requires Bounds(w.cards, b, end) && BarrierOk(w, b, end)
    ensures w.may <= Range(b[0], end)
  {
  }

  /** A card that is not marked is not copied. */
  lemma SomethingMissing(cards: seq<nat>, b: seq<nat>, end: nat)
    requires Bounds(cards, b, end) && NoEmptyCard(b) && SomeMarked(cards) && !LooksFullyMarked(cards)
    ensures !(Range(b[0], end) <= Copied(cards, b, end))
  {
    var last := |cards| - 1;
    var d := if cards[1] != CARD_MARKED_OLD then 1 else if cards[last] != CARD_MARKED_OLD then last else last / 2 + 1;
    assert b[d] < b[d + 1];
    InMarked(cards, b, |cards|, b[d]);
    assert b[d] in Range(b[0], end) && b[d] !in MarkedBytes(cards, b, |cards|);
  }

  lemma OneMore(n: nat, events: seq<Event>, e: Event, b: seq<nat>, end: nat)
    requires n > 1 && |b| == n + 1 && AfterAll(n, events, b, end).Some?
    ensures var w := AfterAll(n, events, b, end).value;
      AfterAll(n, events + [e], b, end) == if Fits(w, e) then Some(After(w, e, b, end)) else None
  {
    assert (events + [e])[..|events|] == events;
  }

  lemma AfterOne(n: nat, events: seq<Event>, e: Event, b: seq<nat>, end: nat) returns (w: Written)
    requires n > 1 && |b| == n + 1 && AfterAll(n, events, b, end).Some? && Fits(AfterAll(n, events, b, end).value, e)
    ensures AfterAll(n, events + [e], b, end) == Some(w) && w == After(AfterAll(n, events, b, end).value, e, b, end)
  {
    OneMore(n, events, e, b, end);
    w := After(AfterAll(n, events, b, end).value, e, b, end);
  }

  lemma FullThenCard(n: nat, b: seq<nat>, end: nat) returns (w: Written)
    requires n > 2 && |b| == n + 1
    ensures AfterAll(n, [Full, Collect, Card(0)], b, end).Some?
    ensures w == After(AfterAll(n, [Full, Collect, Card(0)], b, end).value, Collect, b, end)
    ensures w == After(After(After(After(Locked(n), Full, b, end), Collect, b, end), Card(0), b, end), Collect, b, end)
    ensures |w.cards| == n && w.may == Range(b[0], end) + Range(b[1], b[2])
    ensures forall d :: 0 < d < n ==> w.cards[d] == if d == 1 then CARD_MARKED_OLD else CARD_CLEAR
  {
    hide AfterAll;
    NoEvents(n, b, end);
    var w1 := AfterOne(n, [], Full, b, end);
    var w2 := AfterOne(n, [] + [Full], Collect, b, end);
    var w3 := AfterOne(n, [] + [Full] + [Collect], Card(0), b, end);
    assert [] + [Full] + [Collect] + [Card(0)] == [Full, Collect, Card(0)];
    w := After(w3, Collect, b, end);
  }

  lemma NoEvents(n: nat, b: seq<nat>, end: nat)
    requires n > 1 && |b| == n + 1
    ensures AfterAll(n, [], b, end) == Some(Locked(n))
  {
  }

  /** The shortest way to lose changes: the full write barrier, a minor collection,
      and one card marked, of an object with two cards or more. */
  lemma LosesChanges(n: nat, b: seq<nat>, end: nat)
    requires n > 2 && Bounds(Locked(n).cards, b, end) && NoEmptyCard(b)
    ensures AfterAll(n, [Full, Collect, Card(0)], b, end).Some?
    ensures var w := After(AfterAll(n, [Full, Collect, Card(0)], b, end).value, Collect, b, end);
      w.may == Range(b[0], end) && Copied(w.cards, b, end) == Range(b[1], b[2]) && !(w.may <= Copied(w.cards, b, end))
  {
    hide After, AfterAll;
    var w := FullThenCard(n, b, end);
    assert w.may == Range(b[0], end);
    assert IsMarked(w.cards, 1);
    OnlyFirst(w.cards, b, n);
    SomethingMissing(w.cards, b, end);
  }

  lemma {:induction false} OnlyFirst(cards: seq<nat>, b: seq<nat>, upTo: nat)
    requires 2 <= upTo < |b| && IsMarked(cards, 1) && forall d :: 1 < d < upTo ==> !IsMarked(cards, d)
    ensures MarkedBytes(cards, b, upTo) == Range(b[1], b[2])
  {
    if upTo > 2 { OnlyFirst(cards, b, upTo - 1); } else { assert MarkedBytes(cards, b, 1) == {}; }
  }
}
