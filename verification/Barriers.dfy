/** What the write barriers (module Cards) mean for the commit (module Segments):
    copying only the marked cards of an object is as good as copying all of it,
    except in one family of histories. */
module Barriers {
  import opened Cards
  import S = Segments

  /** The history of an object that the transaction of segment me has locked, and
      its lock bytes just before the commit, which begins with a minor collection. */
  ghost predicate Marked(s: S.SegmentMemory, marks: seq<nat>, o: nat, events: seq<Event>, w: Written)
    reads s, s.modified
  {
    && s.Shape() && o < |s.layout.start| && s.UsesCards(o)
    && var base, item := s.layout.base[o], s.layout.item[o];
    && var last, b, end := s.LastCard(o, base, item), s.Boundaries(o, base, item), s.layout.start[o] + s.layout.size[o];
    && last > 0 && AfterAll(last + 1, events, b, end).Some? && w == After(AfterAll(last + 1, events, b, end).value, Collect, b, end)
    && s.CardLock(o, last) < |marks| && forall d :: 0 < d <= last ==> s.CardsOf(marks, o, last)[d] == w.cards[d]
  }

  /** Everywhere but in the bytes that the program may have changed, the others
      have what segment me has. */
  ghost predicate ChangedIn(s: S.SegmentMemory, c: seq<seq<int>>, me: nat, o: nat, may: set<nat>)
    requires s.layout.Valid() && me < s.Count() && o < |s.layout.start|
    reads s.bySegment
  {
    s.Fits(c) && s.AgreeBut(c, me, s.layout.start[o], s.layout.start[o] + s.layout.size[o], may)
  }

  ghost predicate AllPrivate(s: S.SegmentMemory, me: nat, o: nat)
    requires s.Shape() && o < |s.layout.start|
    reads s, s.modified, s.bySegment
  {
    forall a :: s.layout.start[o] <= a < s.layout.start[o] + s.layout.size[o] ==> s.Private(me, a)
  }

  lemma LastCardStarts(s: S.SegmentMemory, o: nat, base: nat, item: nat)
    requires o < |s.layout.start| == |s.layout.size| && s.CardLayout(o, base, item)
    ensures var last := s.LastCard(o, base, item); last > 0 && base + (last - 1) * CARD_SIZE * item < s.layout.size[o]
  {
    var n := (s.layout.size[o] - base) / item;
    s.ItemCount(s.layout.size[o] - base, item);
    var last := s.LastCard(o, base, item);
    s.Scale((last - 1) * CARD_SIZE, n - 1, item);
    assert (n - 1) * item + item == n * item <= s.layout.size[o] - base;
  }

  lemma NoCardEmpty(s: S.SegmentMemory, o: nat, base: nat, item: nat)
    requires o < |s.layout.start| == |s.layout.size| && s.CardLayout(o, base, item)
    ensures NoEmptyCard(s.Boundaries(o, base, item))
  {
    LastCardStarts(s, o, base, item);
    var last, b := s.LastCard(o, base, item), s.Boundaries(o, base, item);
    forall d | 0 < d < |b| - 1 ensures b[d] < b[d + 1] {
      assert b[d] == s.CardStart(o, base, item, d) && b[d + 1] == s.CardStart(o, base, item, d + 1);
      s.Scale((d - 1) * CARD_SIZE, (last - 1) * CARD_SIZE, item);
      CardGap(d, item);
    }
  }

  lemma CardGap(d: nat, item: nat)
    requires d > 0 && item > 0
    ensures (d - 1) * CARD_SIZE * item < d * CARD_SIZE * item
  {
    assert d * CARD_SIZE * item == (d - 1) * CARD_SIZE * item + CARD_SIZE * item;
  }

  /** Whether the commit copies whatever was changed. */
  lemma CopiesWhatChanged(s: S.SegmentMemory, marks: seq<nat>, o: nat, events: seq<Event>, w: Written)
    requires Marked(s, marks, o, events, w)
    ensures s.MarksOk(marks, o) && s.HasLocks(marks, o)
    ensures w.may <= s.CopiedBytes(marks, o) <==> !MayLose(w)
    ensures w.may <= Range(s.layout.start[o], s.layout.start[o] + s.layout.size[o])
  {
    var base, item := s.layout.base[o], s.layout.item[o];
    var last, b, end := s.LastCard(o, base, item), s.Boundaries(o, base, item), s.layout.start[o] + s.layout.size[o];
    s.BoundariesAscend(o, base, item, b);
    NoCardEmpty(s, o, base, item);
    CommitCopiesAll(last + 1, events, b, end);
    EventsKeep(last + 1, events, b, end);
    EventKeeps(AfterAll(last + 1, events, b, end).value, Collect, b, end);
    SameMarked(w.cards, s.CardsOf(marks, o, last), b, end);
    MayInside(w, b, end);
  }

  /** Whatever the program stored, the commit can rely on the marks: exactly if it
      is not the case that the object passed the full write barrier without cards
      set, had a card marked as well, and does not look fully marked. */
  lemma HonestExactly(s: S.SegmentMemory, marks: seq<nat>, me: nat, o: nat, events: seq<Event>, w: Written)
    requires Marked(s, marks, o, events, w) && 0 < me < s.Count() && AllPrivate(s, me, o)
    ensures (forall c :: ChangedIn(s, c, me, o, w.may) ==> s.Honest(c, marks, me, o))
      <==> !MayLose(w)
  {
    CopiesWhatChanged(s, marks, o, events, w);
    var copied := s.CopiedBytes(marks, o);
    if w.may <= copied {
      forall c | ChangedIn(s, c, me, o, w.may) ensures s.Honest(c, marks, me, o) {}
    } else {
      var a :| a in w.may && a !in copied;
      var c := Differing(s, marks, me, o, w.may, a);
    }
  }

  /** One changed byte that is not copied. */
  lemma Differing(s: S.SegmentMemory, marks: seq<nat>, me: nat, o: nat, may: set<nat>, a: nat) returns (c: seq<seq<int>>)
    requires s.Shape() && 0 < me < s.Count() && o < |s.layout.start| && AllPrivate(s, me, o)
    requires s.MarksOk(marks, o) && s.HasLocks(marks, o)
    requires a in may && a !in s.CopiedBytes(marks, o) && s.layout.start[o] <= a < s.layout.start[o] + s.layout.size[o]
    ensures ChangedIn(s, c, me, o, may) && !s.Honest(c, marks, me, o)
  {
    c := seq(s.Count(), i => seq(|s.layout.owner|, b => if i == me && b == a then 1 else 0));
    assert s.Private(me, a) && c[0][a] != c[s.Copy(me, a)][a];
  }
}
