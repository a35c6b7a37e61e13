/** The protocol with the card-wise commit.  Module Protocol commits whole objects;
    here the machine also has the state of the write barriers (module Cards) for every
    object that a transaction has locked, a store needs a barrier that covers it, and a
    commit copies only the bytes that the marked cards tell it to.

    As long as no commit finds an object in the state `MayLose`, this is the machine of
    module Protocol, so every run is serializable.  The comparison of all copies that a
    debug build makes after copying is not part of it. */
module CardCommits {
  import opened Wrappers
  import opened History
  import opened Views
  import opened Protocol
  import opened ProtocolSafety
  import opened ProtocolTheorems
  import C = Cards

  /** Where an object begins, where each of its cards begins, and where it ends.  An
      object that does not use cards is given one that never gets marked. */
  datatype Shape = Shape(uses: bool, b: seq<nat>, end: nat) {
    function Cards(): int { |b| - 1 }
  }

  /** written[t][o] counts if segment t lists o as modified. */
  datatype CardState = CardState(st: State, shapes: seq<Shape>, written: seq<map<nat, C.Written>>)

  datatype CardAction =
    | Other(p: Action)                          // all that is not below
    | Write(t: nat, o: nat, e: C.Event)         // stm_write or stm_write_card
    | Store(t: nat, x: nat, v: int)
    | Minor(t: nat)                             // a minor collection
    | MajorCards(t: nat, kinds: seq<C.Event>)   // a major collection: per segment, with or without a minor one
    | CommitCards(t: nat)

  ghost predicate ShapesOk(m: Memory, shapes: seq<Shape>) {
    && |shapes| == m.objects
    && (forall o :: 0 <= o < m.objects ==> ShapeOk(shapes[o]))
    && (forall o, a :: 0 <= o < m.objects && 0 <= a < |m.owner| ==> (m.owner[a] == o <==> shapes[o].b[0] <= a < shapes[o].end))
  }

  ghost predicate ShapeOk(s: Shape) {
    s.Cards() > 1 && C.Bounds(C.Locked(s.Cards()).cards, s.b, s.end) && C.NoEmptyCard(s.b)
  }

  // ----- the steps

  /** Cards are only marked in objects that use them. */
  function Effective(s: Shape, e: C.Event): C.Event { if s.uses then e else C.Full }

  /** The barrier state of an object just before a barrier. */
  function Before(cs: CardState, t: nat, o: nat): (w: C.Written)
    requires t < |cs.written| && o < |cs.shapes| && o < |cs.st.mem.locks| && cs.shapes[o].Cards() > 1
  {
    if cs.st.mem.locks[o] == t && o in cs.written[t] then cs.written[t][o] else C.Locked(cs.shapes[o].Cards())
  }

  /** The barrier state of o, which segment t modifies, goes with its shape. */
  ghost predicate HasCards(cs: CardState, t: nat, o: nat) {
    && t < |cs.written| && o < |cs.shapes| && o in cs.written[t]
    && |cs.written[t][o].cards| == cs.shapes[o].Cards() > 1
  }

  ghost predicate AllHaveCards(cs: CardState, t: nat) {
    t < |cs.st.mem.segs| && forall o :: o in cs.st.mem.segs[t].modified ==> HasCards(cs, t, o)
  }

  /** A collection in segment t. */
  ghost function Collected(cs: CardState, t: nat, e: C.Event): map<nat, C.Written>
    requires AllHaveCards(cs, t) && AllFit(cs, t, e)
  {
    map o: nat | o in cs.st.mem.segs[t].modified :: After(cs, t, o, e)
  }

  ghost function After(cs: CardState, t: nat, o: nat, e: C.Event): C.Written
    requires HasCards(cs, t, o) && C.Fits(cs.written[t][o], e)
  {
    C.After(cs.written[t][o], e, cs.shapes[o].b, cs.shapes[o].end)
  }

  /** No assertion of the collection fails. */
  ghost predicate AllFit(cs: CardState, t: nat, e: C.Event)
    requires AllHaveCards(cs, t)
  {
    forall o :: o in cs.st.mem.segs[t].modified ==> C.Fits(cs.written[t][o], e)
  }

  /** The bytes of the modified objects that the commit of segment t copies, after the
      minor collection at its beginning. */
  ghost predicate IsCopied(cs: CardState, t: nat, a: nat)
    requires AllHaveCards(cs, t) && a < |cs.st.mem.owner|
  {
    var o := cs.st.mem.owner[a];
    o in cs.st.mem.segs[t].modified && a in C.Copied(After(cs, t, o, C.Collect).cards, cs.shapes[o].b, cs.shapes[o].end)
  }

  /** push_modified_to_other_segments with cards: Views.Push of some of the bytes. */
  ghost function PushCopied(cs: CardState, t: nat): Memory
    requires WellFormed(cs.st.mem) && 0 < t < |cs.st.mem.segs| && AllHaveCards(cs, t)
  {
    var m := cs.st.mem;
    m.(locks := Unlock(m, t),
       committed := m.committed + [m.segs[t].log],
       segs := seq(|m.segs|, i requires 0 <= i < |m.segs| => PushedCopied(cs, t, i)))
  }

  ghost function PushedCopied(cs: CardState, t: nat, i: nat): SegmentState
    requires WellFormed(cs.st.mem) && 0 < t < |cs.st.mem.segs| && AllHaveCards(cs, t) && i < |cs.st.mem.segs|
  {
    var m := cs.st.mem;
    var s := m.segs[i];
    if i == t then s.(modified := [], log := []) else
      s.(bytes := seq(|m.owner|, a requires 0 <= a < |m.owner| =>
        if IsCopied(cs, t, a) && (i == 0 || Page(a) in s.private) then View(m, t, a) else s.bytes[a]))
  }

  ghost predicate CardEnabled(cs: CardState, a: CardAction) {
    var st := cs.st;
    WellFormed(st.mem) && |st.threads| == |st.mem.segs| == |cs.written| && |cs.shapes| == st.mem.objects &&
    match a
    case Other(p) => Enabled(st, p) && !p.Barrier? && !p.Put? && !p.DoCommit? && !p.DoCollect?
    case Write(t, o, e) =>
      && 0 < t < |st.threads| && st.threads[t].pc == User && o < st.mem.objects && st.mem.locks[o] in {0, t}
      && cs.shapes[o].Cards() > 1 && (e.Full? || e.Card?)
      && |Before(cs, t, o).cards| == cs.shapes[o].Cards() && C.Fits(Before(cs, t, o), Effective(cs.shapes[o], e))
    case Store(t, x, v) =>
      && Enabled(st, Put(t, x, v)) && HasCards(cs, t, st.mem.owner[x])
      && C.MayStore(cs.written[t][st.mem.owner[x]], cs.shapes[st.mem.owner[x]].b, x)
    case Minor(t) => 0 < t < |st.threads| && st.threads[t].pc == User && AllHaveCards(cs, t)
    case MajorCards(t, kinds) =>
      && Enabled(st, DoCollect(t)) && |kinds| == |st.threads|
      && (forall u :: 0 <= u < |kinds| ==> AllHaveCards(cs, u) && (kinds[u].Collect? || kinds[u].Major?))
    case CommitCards(t) => Enabled(st, DoCommit(t)) && AllHaveCards(cs, t)
  }

  /** None if an assertion fails. */
  ghost function CardNext(cs: CardState, a: CardAction): Option<CardState>
    requires CardEnabled(cs, a)
  {
    var st := cs.st;
    match a
    case Other(p) => if Next(st, p).Some? then Some(cs.(st := Next(st, p).value)) else None
    case Write(t, o, e) =>
      var w := C.After(Before(cs, t, o), Effective(cs.shapes[o], e), cs.shapes[o].b, cs.shapes[o].end);
      var marks: map<nat, C.Written> := cs.written[t][o := w];
      Some(cs.(st := if st.mem.locks[o] == t then st else st.(mem := TakeLock(st.mem, t, o)),
               written := cs.written[t := marks]))
    case Store(t, x, v) => Some(cs.(st := st.(mem := StoreField(st.mem, t, x, v))))
    case Minor(t) => Some(cs.(written := cs.written[t := Collected(cs, t, C.Collect)]))
    case MajorCards(t, kinds) =>
      if exists u :: 0 <= u < |kinds| && !AllFit(cs, u, kinds[u]) then None
      else Some(cs.(st := st.(mem := Reshare(st.mem)),
                    written := seq(|kinds|, u requires 0 <= u < |kinds| => Collected(cs, u, kinds[u]))))
    case CommitCards(t) =>
      if Commit(st, t).Some? then Some(cs.(st := Commit(st, t).value.(mem := PushCopied(cs, t)))) else None
  }

  // ----- the invariant

  /** Outside the bytes that the program may have changed, segment t still has the
      committed version of an object that it modifies. */
  ghost predicate ObjectOk(cs: CardState, t: nat, o: nat)
    requires WellFormed(cs.st.mem) && t < |cs.st.mem.segs|
  {
    && HasCards(cs, t, o)
    && var w, s, m := cs.written[t][o], cs.shapes[o], cs.st.mem;
    && C.BarrierOk(w, s.b, s.end)
    && forall a :: 0 <= a < |m.owner| && m.owner[a] == o && a !in w.may ==> View(m, t, a) == Shared(m)[a]
  }

  ghost predicate CardInv(cs: CardState) {
    && Inv(cs.st) && ShapesOk(cs.st.mem, cs.shapes) && |cs.written| == |cs.st.threads|
    && forall t, o :: 0 <= t < |cs.written| && o in cs.st.mem.segs[t].modified ==> ObjectOk(cs, t, o)
  }

  /** The commit of segment t finds no object that may lose changes. */
  ghost predicate Clean(cs: CardState, t: nat)
    requires AllHaveCards(cs, t)
  {
    forall o :: o in cs.st.mem.segs[t].modified ==> !C.MayLose(After(cs, t, o, C.Collect))
  }

  lemma EachHasCards(cs: CardState, t: nat)
    requires CardInv(cs) && t < |cs.written|
    ensures AllHaveCards(cs, t)
  {
    forall o | o in cs.st.mem.segs[t].modified ensures HasCards(cs, t, o) { assert ObjectOk(cs, t, o); }
  }

  lemma ShapeBounds(cs: CardState, t: nat, o: nat)
    requires CardInv(cs) && t < |cs.written| && HasCards(cs, t, o)
    ensures C.Bounds(cs.written[t][o].cards, cs.shapes[o].b, cs.shapes[o].end) && C.NoEmptyCard(cs.shapes[o].b)
  {
    assert ShapeOk(cs.shapes[o]);
  }

  /** Each byte that the commit leaves out is one that the program cannot have changed,
      if the object is not in the state MayLose. */
  lemma LeftOutIsCommitted(cs: CardState, t: nat, a: nat)
    requires CardInv(cs) && t < |cs.written| && AllHaveCards(cs, t) && a < |cs.st.mem.owner|
    requires cs.st.mem.owner[a] in cs.st.mem.segs[t].modified && !IsCopied(cs, t, a)
    requires !C.MayLose(After(cs, t, cs.st.mem.owner[a], C.Collect))
    ensures View(cs.st.mem, t, a) == Shared(cs.st.mem)[a]
  {
    hide Ordered, C.BarrierOk, C.Copied, C.MayLose;
    var o := cs.st.mem.owner[a];
    assert ObjectOk(cs, t, o);
    ShapeBounds(cs, t, o);
    C.CollectedCopies(cs.written[t][o], cs.shapes[o].b, cs.shapes[o].end);
    C.EventKeeps(cs.written[t][o], C.Collect, cs.shapes[o].b, cs.shapes[o].end);
  }

  /** The card-wise commit is the commit of the protocol exactly if whatever it leaves
      out is the committed version already. */
  lemma CommitIsPushExactly(cs: CardState, t: nat)
    requires CardInv(cs) && 0 < t < |cs.written| && AllHaveCards(cs, t)
    ensures PushCopied(cs, t) == Push(cs.st.mem, t) <==> LeavesNothing(cs, t)
  {
    if LeavesNothing(cs, t) {
      forall i | 0 <= i < |cs.st.mem.segs| ensures PushedCopied(cs, t, i) == Pushed(cs.st.mem, t, i) { PushedSame(cs, t, i); }
      assert PushCopied(cs, t).segs == Push(cs.st.mem, t).segs;
    } else {
      var a :| 0 <= a < |cs.st.mem.owner| && cs.st.mem.owner[a] in cs.st.mem.segs[t].modified
        && !IsCopied(cs, t, a) && View(cs.st.mem, t, a) != Shared(cs.st.mem)[a];
      assert PushedCopied(cs, t, 0).bytes[a] != Pushed(cs.st.mem, t, 0).bytes[a];
      assert PushCopied(cs, t).segs[0] != Push(cs.st.mem, t).segs[0];
    }
  }

  ghost predicate LeavesNothing(cs: CardState, t: nat)
    requires WellFormed(cs.st.mem) && t < |cs.st.mem.segs| && AllHaveCards(cs, t)
  {
    var m := cs.st.mem;
    forall a :: 0 <= a < |m.owner| && m.owner[a] in m.segs[t].modified && !IsCopied(cs, t, a) ==> View(m, t, a) == Shared(m)[a]
  }

  lemma PushedSame(cs: CardState, t: nat, i: nat)
    requires CardInv(cs) && 0 < t < |cs.written| && AllHaveCards(cs, t) && LeavesNothing(cs, t) && i < |cs.st.mem.segs|
    ensures PushedCopied(cs, t, i) == Pushed(cs.st.mem, t, i)
  {
    hide C.Copied, After;
    var m := cs.st.mem;
    forall a | 0 <= a < |m.owner| && m.owner[a] in m.segs[t].modified && !IsCopied(cs, t, a) && i != t && (i == 0 || Page(a) in m.segs[i].private)
      ensures m.segs[i].bytes[a] == View(m, t, a)
    {
      assert View(m, i, a) == Shared(m)[a] by { assert m.locks[m.owner[a]] == t && m.owner[a] !in m.segs[i].modified; }
    }
    if i != t { assert PushedCopied(cs, t, i).bytes == Pushed(m, t, i).bytes; }
  }

  lemma CleanLeavesNothing(cs: CardState, t: nat)
    requires CardInv(cs) && t < |cs.written| && AllHaveCards(cs, t) && Clean(cs, t)
    ensures LeavesNothing(cs, t)
  {
    var m := cs.st.mem;
    forall a | 0 <= a < |m.owner| && m.owner[a] in m.segs[t].modified && !IsCopied(cs, t, a) ensures View(m, t, a) == Shared(m)[a] {
      LeftOutIsCommitted(cs, t, a);
    }
  }

  // ----- every step keeps it

  /** What the segments modify, and their views of it, are as before. */
  ghost predicate Undisturbed(m: Memory, m': Memory) {
    && WellFormed(m) && WellFormed(m') && m'.owner == m.owner && m'.objects == m.objects && |m'.segs| == |m.segs|
    && (forall t, o :: 0 <= t < |m.segs| && o in m'.segs[t].modified ==> o in m.segs[t].modified)
    && (forall t, a :: 0 <= t < |m.segs| && 0 <= a < |m.owner| && m.owner[a] in m'.segs[t].modified ==>
         View(m', t, a) == View(m, t, a) && Shared(m')[a] == Shared(m)[a])
  }

  lemma SameUndisturbed(m: Memory)
    requires WellFormed(m)
    ensures Undisturbed(m, m)
  {
  }

  lemma SameViewsUndisturb(m: Memory, m': Memory)
    requires WellFormed(m) && WellFormed(m') && m'.owner == m.owner && m'.objects == m.objects && |m'.segs| == |m.segs|
    requires forall i :: 0 <= i < |m.segs| ==> m'.segs[i].modified == m.segs[i].modified && ViewOf(m', i) == ViewOf(m, i)
    ensures Undisturbed(m, m')
  {
    forall t, a | 0 <= t < |m.segs| && 0 <= a < |m.owner| ensures View(m', t, a) == View(m, t, a) && Shared(m')[a] == Shared(m)[a] {
      assert ViewOf(m', t)[a] == View(m', t, a) && ViewOf(m', 0)[a] == View(m', 0, a);
    }
  }

  lemma ResetUndisturbs(m: Memory, i: nat)
    requires Coherent(m) && 0 < i < |m.segs|
    ensures Undisturbed(m, Reset(m, i))
  {
    ResetKeeps(m, i);
    var m' := Reset(m, i);
    forall t, a | 0 <= t < |m.segs| && 0 <= a < |m.owner| && m.owner[a] in m'.segs[t].modified
      ensures View(m', t, a) == View(m, t, a) && Shared(m')[a] == Shared(m)[a]
    {
      assert ViewOf(m', t)[a] == View(m', t, a);
    }
  }

  lemma PushUndisturbs(m: Memory, t: nat)
    requires Coherent(m) && 0 < t < |m.segs|
    ensures Undisturbed(m, Push(m, t))
  {
    PushViews(m, t);
    var m' := Push(m, t);
    forall i, a | 0 <= i < |m.segs| && 0 <= a < |m.owner| && m.owner[a] in m'.segs[i].modified
      ensures View(m', i, a) == View(m, i, a) && Shared(m')[a] == Shared(m)[a]
    {
      assert m.locks[m.owner[a]] == i && m.owner[a] !in m.segs[t].modified;
      assert View(m', 0, a) == View(m, 0, a);
    }
  }

  lemma SameBytesUndisturb(m: Memory, m': Memory)
    requires WellFormed(m) && WellFormed(m') && m'.owner == m.owner && m'.objects == m.objects && |m'.segs| == |m.segs|
    requires forall i :: 0 <= i < |m.segs| ==>
      m'.segs[i].modified == m.segs[i].modified && m'.segs[i].bytes == m.segs[i].bytes && m'.segs[i].private == m.segs[i].private
    ensures Undisturbed(m, m')
  {
    SameViews(m, m');
    SameViewsUndisturb(m, m');
  }

  lemma BumpUndisturbs(m: Memory, t: nat)
    requires WellFormed(m) && 0 < t < |m.segs|
    ensures Undisturbed(m, NewVersion(m, t))
  {
    SameBytesUndisturb(m, NewVersion(m, t));
  }

  lemma MarkUndisturbs(m: Memory, t: nat, o: nat)
    requires WellFormed(m) && 0 < t < |m.segs| && o < m.objects
    ensures Undisturbed(m, MarkRead(m, t, o))
  {
    SameBytesUndisturb(m, MarkRead(m, t, o));
  }

  lemma LoadUndisturbs(m: Memory, t: nat, a: nat)
    requires CanAccess(m, t, a)
    ensures Undisturbed(m, LoadField(m, t, a))
  {
    SameBytesUndisturb(m, LoadField(m, t, a));
  }

  lemma PrivatizeUndisturbs(m: Memory, t: nat, p: nat)
    requires Coherent(m) && 0 < t < |m.segs|
    ensures Undisturbed(m, Privatize(m, t, p))
  {
    PrivatizeKeeps(m, t, p);
    SameViewsUndisturb(m, Privatize(m, t, p));
  }

  lemma ReshareUndisturbs(m: Memory)
    requires Coherent(m)
    ensures Undisturbed(m, Reshare(m))
  {
    ReshareKeeps(m);
    SameViewsUndisturb(m, Reshare(m));
  }

  lemma ActionUndisturbs(st: State, a: Action, st': State)
    requires Inv(st) && Follows(st, a, st') && !a.Barrier? && !a.Put?
    ensures Undisturbed(st.mem, st'.mem)
  {
    hide Ordered, Undisturbed, Manage, Wake, Poll, Count, Abort, Commit, NewVersion, Reshare, Privatize, Push, MarkRead, LoadField,
      ViewsAgree, LocksMatch, MarkersExact, AccessesMarked, LogsReplay;
    SameUndisturbed(st.mem);
    match a
    case BumpVersion(t) => BumpUndisturbs(st.mem, t);
    case Read(t, o) => MarkUndisturbs(st.mem, t, o);
    case Get(t, x) => LoadUndisturbs(st.mem, t, x);
    case MakePrivate(t, p) => PrivatizeUndisturbs(st.mem, t, p);
    case Contend(t, o) => MarkUndisturbs(st.mem, t, o);
    case DoCommit(t) => CommitMemory(st, t); PushUndisturbs(st.mem, t);
    case DoCollect(_) => ReshareUndisturbs(st.mem);
    case Step(t) =>
      StepMemory(st, t);
      if st'.mem != st.mem {
        var i :| 0 < i < |st.mem.segs| && st'.mem == Reset(st.mem, i);
        ResetUndisturbs(st.mem, i);
      }
    case _ =>
  }

  /** Barriers may have let the program change more, and nothing else happened. */
  lemma MoreAllowed(cs: CardState, cs': CardState)
    requires CardInv(cs) && Inv(cs'.st) && Undisturbed(cs.st.mem, cs'.st.mem) && cs'.shapes == cs.shapes
    requires |cs'.written| == |cs.written| == |cs'.st.threads|
    requires forall t, o :: 0 <= t < |cs.written| && o in cs'.st.mem.segs[t].modified ==> HasCards(cs, t, o) && Grows(cs, cs', t, o)
    ensures CardInv(cs')
  {
    hide ThreadOk, WaitOk, PairOk, GlobalOk, ViewsAgree, LocksMatch, MarkersExact, AccessesMarked, LogsReplay, C.BarrierOk, ShapeOk;
    forall t, o | 0 <= t < |cs.written| && o in cs'.st.mem.segs[t].modified ensures ObjectOk(cs', t, o) {
      assert ObjectOk(cs, t, o) && Grows(cs, cs', t, o);
    }
  }

  ghost predicate Grows(cs: CardState, cs': CardState, t: nat, o: nat)
    requires HasCards(cs, t, o)
  {
    && HasCards(cs', t, o) && cs'.shapes[o] == cs.shapes[o]
    && C.BarrierOk(cs'.written[t][o], cs.shapes[o].b, cs.shapes[o].end) && cs.written[t][o].may <= cs'.written[t][o].may
  }

  lemma SameGrows(cs: CardState, cs': CardState, t: nat, o: nat)
    requires CardInv(cs) && t < |cs.written| && o in cs.st.mem.segs[t].modified && cs'.shapes == cs.shapes
    requires t < |cs'.written| && o in cs'.written[t] && o in cs.written[t] && cs'.written[t][o] == cs.written[t][o]
    ensures HasCards(cs, t, o) && Grows(cs, cs', t, o)
  {
    hide ThreadOk, WaitOk, PairOk, GlobalOk, ViewsAgree, LocksMatch, MarkersExact, AccessesMarked, LogsReplay, ShapesOk;
    assert ObjectOk(cs, t, o);
  }

  lemma EventGrows(cs: CardState, cs': CardState, t: nat, o: nat, e: C.Event)
    requires CardInv(cs) && t < |cs.written| && o in cs.st.mem.segs[t].modified && cs'.shapes == cs.shapes
    requires HasCards(cs, t, o) && C.Fits(cs.written[t][o], e)
    requires t < |cs'.written| && o in cs'.written[t] && cs'.written[t][o] == After(cs, t, o, e)
    ensures Grows(cs, cs', t, o)
  {
    hide ThreadOk, WaitOk, PairOk, GlobalOk, ViewsAgree, LocksMatch, MarkersExact, AccessesMarked, LogsReplay, C.BarrierOk, ShapesOk;
    assert ObjectOk(cs, t, o);
    ShapeBounds(cs, t, o);
    C.EventKeeps(cs.written[t][o], e, cs.shapes[o].b, cs.shapes[o].end);
  }

  lemma OtherKeeps(cs: CardState, a: CardAction, cs': CardState)
    requires CardInv(cs) && CardFollows(cs, a, cs') && a.Other?
    ensures CardInv(cs') && Follows(cs.st, a.p, cs'.st)
  {
    hide ThreadOk, WaitOk, PairOk, GlobalOk, ViewsAgree, LocksMatch, MarkersExact, AccessesMarked, LogsReplay, Undisturbed, Enabled, Next;
    ActionKeeps(cs.st, a.p);
    ActionUndisturbs(cs.st, a.p, cs'.st);
    OnlyModified(cs, cs');
    MoreAllowed(cs, cs');
  }

  /** The state of the barriers stays. */
  lemma OnlyModified(cs: CardState, cs': CardState)
    requires CardInv(cs) && Undisturbed(cs.st.mem, cs'.st.mem) && cs' == cs.(st := cs'.st)
    ensures forall t, o :: 0 <= t < |cs.written| && o in cs'.st.mem.segs[t].modified ==> HasCards(cs, t, o) && Grows(cs, cs', t, o)
  {
    hide ThreadOk, WaitOk, PairOk, GlobalOk, ViewsAgree, LocksMatch, MarkersExact, AccessesMarked, LogsReplay;
    forall t, o | 0 <= t < |cs.written| && o in cs'.st.mem.segs[t].modified ensures HasCards(cs, t, o) && Grows(cs, cs', t, o) {
      assert ObjectOk(cs, t, o);
      SameGrows(cs, cs', t, o);
    }
  }

  ghost predicate CardFollows(cs: CardState, a: CardAction, cs': CardState) {
    CardEnabled(cs, a) && CardNext(cs, a) == Some(cs')
  }

  lemma MinorKeeps(cs: CardState, a: CardAction, cs': CardState)
    requires CardInv(cs) && CardFollows(cs, a, cs') && a.Minor?
    ensures CardInv(cs') && cs'.st == cs.st
  {
    hide ThreadOk, WaitOk, PairOk, GlobalOk, ViewsAgree, LocksMatch, MarkersExact, AccessesMarked, LogsReplay, Undisturbed, C.BarrierOk;
    SameUndisturbed(cs.st.mem);
    forall t, o | 0 <= t < |cs.written| && o in cs.st.mem.segs[t].modified ensures HasCards(cs, t, o) && Grows(cs, cs', t, o) {
      assert ObjectOk(cs, t, o);
      if t == a.t { EventGrows(cs, cs', t, o, C.Collect); } else { SameGrows(cs, cs', t, o); }
    }
    MoreAllowed(cs, cs');
  }

  lemma MajorKeeps(cs: CardState, a: CardAction, cs': CardState)
    requires CardInv(cs) && CardFollows(cs, a, cs') && a.MajorCards?
    ensures CardInv(cs') && Follows(cs.st, DoCollect(a.t), cs'.st)
  {
    hide ThreadOk, WaitOk, PairOk, GlobalOk, ViewsAgree, LocksMatch, MarkersExact, AccessesMarked, LogsReplay, C.BarrierOk, Reshare;
    ActionKeeps(cs.st, DoCollect(a.t));
    ReshareUndisturbs(cs.st.mem);
    forall t, o | 0 <= t < |cs.written| && o in cs'.st.mem.segs[t].modified ensures HasCards(cs, t, o) && Grows(cs, cs', t, o) {
      assert o in cs.st.mem.segs[t].modified;
      assert ObjectOk(cs, t, o) && AllFit(cs, t, a.kinds[t]);
      EventGrows(cs, cs', t, o, a.kinds[t]);
    }
    MoreAllowed(cs, cs');
  }

  lemma CommitKeeps(cs: CardState, a: CardAction, cs': CardState)
    requires CardInv(cs) && CardFollows(cs, a, cs') && a.CommitCards? && AllHaveCards(cs, a.t) && Clean(cs, a.t)
    ensures CardInv(cs') && Follows(cs.st, DoCommit(a.t), cs'.st)
  {
    hide ThreadOk, WaitOk, PairOk, GlobalOk, ViewsAgree, LocksMatch, MarkersExact, AccessesMarked, LogsReplay, Undisturbed, Push, PushCopied, Commit, Finish;
    CleanLeavesNothing(cs, a.t);
    CommitIsPushExactly(cs, a.t);
    CommitMemory(cs.st, a.t);
    ActionKeeps(cs.st, DoCommit(a.t));
    ActionUndisturbs(cs.st, DoCommit(a.t), cs'.st);
    OnlyModified(cs, cs');
    MoreAllowed(cs, cs');
  }

  /** The lock says whether the object is in the list. */
  lemma LockedModified(m: Memory, t: nat, o: nat)
    requires Coherent(m) && 0 < t < |m.segs| && o < m.objects
    ensures m.locks[o] == t <==> o in m.segs[t].modified
  {
  }

  /** A barrier on an object that the transaction has locked already. */
  lemma AgainKeeps(cs: CardState, a: CardAction, cs': CardState)
    requires CardInv(cs) && CardFollows(cs, a, cs') && a.Write? && cs.st.mem.locks[a.o] == a.t
    ensures CardInv(cs') && cs'.st == cs.st
  {
    hide ThreadOk, WaitOk, PairOk, GlobalOk, ViewsAgree, LocksMatch, MarkersExact, AccessesMarked, LogsReplay, Undisturbed, C.BarrierOk;
    SameUndisturbed(cs.st.mem);
    LockedModified(cs.st.mem, a.t, a.o);
    assert ObjectOk(cs, a.t, a.o);
    forall t, o | 0 <= t < |cs.written| && o in cs.st.mem.segs[t].modified ensures HasCards(cs, t, o) && Grows(cs, cs', t, o) {
      assert ObjectOk(cs, t, o);
      if t == a.t && o == a.o { EventGrows(cs, cs', t, o, Effective(cs.shapes[o], a.e)); } else { SameGrows(cs, cs', t, o); }
    }
    MoreAllowed(cs, cs');
  }

  /** The first barrier on an object takes the lock. */
  lemma FirstKeeps(cs: CardState, a: CardAction, cs': CardState)
    requires CardInv(cs) && CardFollows(cs, a, cs') && a.Write? && cs.st.mem.locks[a.o] != a.t
    ensures CardInv(cs') && Follows(cs.st, Barrier(a.t, a.o), cs'.st)
  {
    hide ThreadOk, WaitOk, PairOk, GlobalOk, ViewsAgree, LocksMatch, MarkersExact, AccessesMarked, LogsReplay, C.BarrierOk;
    ActionKeeps(cs.st, Barrier(a.t, a.o));
    LockedModified(cs.st.mem, a.t, a.o);
    LockViews(cs.st.mem, a.t, a.o);
    assert cs'.shapes == cs.shapes && cs'.st.mem == TakeLock(cs.st.mem, a.t, a.o);
    forall t, o | 0 <= t < |cs'.written| && o in cs'.st.mem.segs[t].modified ensures ObjectOk(cs', t, o) {
      if t == a.t && o == a.o {
        NewlyLocked(cs, a, cs');
      } else {
        assert ObjectOk(cs, t, o);
      }
    }
  }

  lemma LockViews(m: Memory, t: nat, o: nat)
    requires WellFormed(m) && 0 < t < |m.segs| && o < m.objects
    ensures WellFormed(TakeLock(m, t, o)) && Shared(TakeLock(m, t, o)) == Shared(m)
    ensures forall i, a :: 0 <= i < |m.segs| && 0 <= a < |m.owner| ==> View(TakeLock(m, t, o), i, a) == View(m, i, a)
    ensures forall i, p :: 0 <= i < |m.segs| && p in TakeLock(m, t, o).segs[i].modified ==> p in m.segs[i].modified || (i == t && p == o)
  {
  }

  lemma NewlyLocked(cs: CardState, a: CardAction, cs': CardState)
    requires CardInv(cs) && CardFollows(cs, a, cs') && a.Write? && cs.st.mem.locks[a.o] != a.t
    requires WellFormed(cs'.st.mem)
    ensures ObjectOk(cs', a.t, a.o)
  {
    hide ThreadOk, WaitOk, PairOk, GlobalOk, MarkersExact, AccessesMarked, LogsReplay, C.BarrierOk;
    var t, o, s := a.t, a.o, cs.shapes[a.o];
    LockedModified(cs.st.mem, t, o);
    LockViews(cs.st.mem, t, o);
    assert ShapeOk(s);
    C.LockedOk(s.Cards(), s.b, s.end);
    C.EventKeeps(C.Locked(s.Cards()), Effective(s, a.e), s.b, s.end);
  }

  lemma StoreKeeps(cs: CardState, a: CardAction, cs': CardState)
    requires CardInv(cs) && CardFollows(cs, a, cs') && a.Store?
    ensures CardInv(cs') && Follows(cs.st, Put(a.t, a.x, a.v), cs'.st)
  {
    hide ThreadOk, WaitOk, PairOk, GlobalOk, ViewsAgree, LocksMatch, MarkersExact, AccessesMarked, LogsReplay, C.BarrierOk, C.MayStore;
    ActionKeeps(cs.st, Put(a.t, a.x, a.v));
    StoreFieldKeeps(cs.st.mem, a.t, a.x, a.v);
    var m, m', x := cs.st.mem, cs'.st.mem, cs.st.mem.owner[a.x];
    LockedModified(m, a.t, x);
    assert ObjectOk(cs, a.t, x);
    C.StoresWithin(cs.written[a.t][x], cs.shapes[x].b, cs.shapes[x].end, a.x);
    forall t, o | 0 <= t < |cs'.written| && o in m'.segs[t].modified ensures ObjectOk(cs', t, o) {
      assert ObjectOk(cs, t, o);
      forall b | 0 <= b < |m.owner| && m.owner[b] == o && b !in cs.written[t][o].may ensures View(m', t, b) == Shared(m')[b] {
        assert ViewOf(m', t)[b] == View(m', t, b) && ViewOf(m', 0)[b] == View(m', 0, b);
      }
    }
  }

  // ----- runs

  ghost predicate IsCardRun(states: seq<CardState>, acts: seq<CardAction>) {
    |states| == |acts| + 1 && forall i :: 0 <= i < |acts| ==> CardFollows(states[i], acts[i], states[i + 1])
  }

  ghost predicate CommitsClean(cs: CardState, a: CardAction) {
    a.CommitCards? ==> AllHaveCards(cs, a.t) && Clean(cs, a.t)
  }

  /** A step with cards is a step of the protocol, or none at all, unless it is a
      commit that may lose something. */
  lemma StepRefines(cs: CardState, a: CardAction, cs': CardState)
    requires CardInv(cs) && CardFollows(cs, a, cs') && CommitsClean(cs, a)
    ensures CardInv(cs')
    ensures cs'.st == cs.st || exists p :: Follows(cs.st, p, cs'.st)
  {
    hide CardInv, CardNext, Follows;
    match a
    case Other(_) => OtherKeeps(cs, a, cs');
    case Write(_, _, _) =>
      if cs.st.mem.locks[a.o] == a.t { AgainKeeps(cs, a, cs'); } else { FirstKeeps(cs, a, cs'); }
    case Store(_, _, _) => StoreKeeps(cs, a, cs');
    case Minor(_) => MinorKeeps(cs, a, cs');
    case MajorCards(_, _) => MajorKeeps(cs, a, cs');
    case CommitCards(_) => CommitKeeps(cs, a, cs');
  }

  lemma {:induction false} CardRunKeeps(states: seq<CardState>, acts: seq<CardAction>, start: seq<int>, i: nat)
    requires IsCardRun(states, acts) && CardInv(states[0]) && Serial(states[0].st, start) && i < |states|
    requires forall k :: 0 <= k < i ==> CommitsClean(states[k], acts[k])
    ensures CardInv(states[i]) && Serial(states[i].st, start)
  {
    hide CardInv, CardFollows, Serial;
    if i > 0 {
      CardRunKeeps(states, acts, start, i - 1);
      assert CardFollows(states[i - 1], acts[i - 1], states[i]);
      StepRefines(states[i - 1], acts[i - 1], states[i]);
      if states[i].st != states[i - 1].st {
        var p :| Follows(states[i - 1].st, p, states[i].st);
        HasInv(states[i - 1]);
        StepSerial(states[i - 1].st, p, states[i].st, start);
      }
    }
  }

  lemma HasInv(cs: CardState)
    requires CardInv(cs)
    ensures Inv(cs.st)
  {
  }

  /** A run from stm_setup. */
  ghost predicate CardsFresh(cs: CardState, segments: nat, owner: seq<nat>, objects: nat, bytes: seq<int>) {
    && StartsFresh([cs.st], segments, owner, objects, bytes)
    && ShapesOk(cs.st.mem, cs.shapes) && |cs.written| == |cs.st.threads|
  }

  lemma FreshInv(cs: CardState, segments: nat, owner: seq<nat>, objects: nat, bytes: seq<int>)
    requires CardsFresh(cs, segments, owner, objects, bytes)
    ensures CardInv(cs) && Serial(cs.st, bytes)
  {
    InitialInv(segments, owner, objects, bytes);
  }

  /** Serializability with the card-wise commit: for every run in which no commit finds
      an object that may lose changes. */
  lemma CardSerializability(states: seq<CardState>, acts: seq<CardAction>, segments: nat, owner: seq<nat>, objects: nat, bytes: seq<int>, i: nat)
    requires IsCardRun(states, acts) && CardsFresh(states[0], segments, owner, objects, bytes) && i < |states|
    requires forall k :: 0 <= k < i ==> CommitsClean(states[k], acts[k])
    ensures Inv(states[i].st)
    ensures ReplayAll(states[i].st.mem.committed, bytes) == Some(Shared(states[i].st.mem))
    ensures forall t :: 0 < t < |states[i].st.mem.segs| ==>
      Replay(states[i].st.mem.segs[t].log, Shared(states[i].st.mem)) == Some(ViewOf(states[i].st.mem, t))
  {
    hide CardFollows, ShapesOk;
    FreshInv(states[0], segments, owner, objects, bytes);
    CardRunKeeps(states, acts, bytes, i);
  }

  /** What any one commit does: the committed transactions, run one at a time, still
      make the committed state exactly if whatever the commit left out was the committed
      version already. */
  lemma CommitSerialExactly(cs: CardState, t: nat, cs': CardState, start: seq<int>)
    requires CardInv(cs) && Serial(cs.st, start) && CardFollows(cs, CommitCards(t), cs')
    ensures Serial(cs'.st, start) <==> LeavesNothing(cs, t)
  {
    var m, m' := cs.st.mem, cs'.st.mem;
    PushViews(m, t);
    ReplayAllAppend(m.committed, m.segs[t].log, start);
    assert m' == PushCopied(cs, t) && m'.committed == m.committed + [m.segs[t].log];
    assert Replay(m.segs[t].log, Shared(m)) == Some(ViewOf(m, t));
    assert ReplayAll(m'.committed, start) == Some(ViewOf(m, t));
    SharedAfter(cs, t);
  }

  lemma SharedAfter(cs: CardState, t: nat)
    requires CardInv(cs) && 0 < t < |cs.written| && AllHaveCards(cs, t)
    ensures Shared(PushCopied(cs, t)) == ViewOf(cs.st.mem, t) <==> LeavesNothing(cs, t)
  {
    var m, now := cs.st.mem, Shared(PushCopied(cs, t));
    assert now == PushedCopied(cs, t, 0).bytes;
    if LeavesNothing(cs, t) {
      forall a | 0 <= a < |m.owner| ensures now[a] == View(m, t, a) {}
    }
    if now == ViewOf(m, t) {
      forall a | 0 <= a < |m.owner| && m.owner[a] in m.segs[t].modified && !IsCopied(cs, t, a) ensures View(m, t, a) == Shared(m)[a] {
        assert now[a] == View(m, t, a);
      }
    }
  }

  /** Listed for its cards, and past the full barrier since. */
  ghost predicate ListedAndOpen(cs: CardState, t: nat, o: nat) {
    t < |cs.written| && o in cs.written[t] && cs.written[t][o].listed && !cs.written[t][o].writeBarrier
  }

  /** The only assertion that can fail is the one of a major collection, and it fails
      exactly for an object whose segment has nothing young, and that had a card marked
      and then passed the full barrier. */
  lemma CardFailsExactly(cs: CardState, a: CardAction)
    requires CardInv(cs) && CardEnabled(cs, a)
    ensures CardNext(cs, a).None? <==>
      a.MajorCards? && exists u, o :: 0 <= u < |a.kinds| && o in cs.st.mem.segs[u].modified && a.kinds[u].Major? && ListedAndOpen(cs, u, o)
  {
    hide Ordered, Coherent, Commit, Next, ShapesOk;
    if a.Other? { ActionKeeps(cs.st, a.p); }
    if a.CommitCards? { ActionKeeps(cs.st, DoCommit(a.t)); CommitSome(cs.st, a.t); }
    if a.MajorCards? {
      forall u, o | 0 <= u < |a.kinds| && o in cs.st.mem.segs[u].modified
        ensures C.Fits(cs.written[u][o], a.kinds[u]) <==> !(a.kinds[u].Major? && ListedAndOpen(cs, u, o))
      {
        assert ObjectOk(cs, u, o);
      }
    }
  }

  lemma CommitSome(st: State, t: nat)
    requires Enabled(st, DoCommit(t)) && Next(st, DoCommit(t)).Some?
    ensures Commit(st, t).Some?
  {
  }
}
