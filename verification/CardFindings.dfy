/** Runs from stm_setup in which the write barriers of large objects go wrong. */
module CardFindings {
  import opened Wrappers
  import opened History
  import opened Views
  import opened Protocol
  import opened ProtocolSafety
  import opened ProtocolTheorems
  import opened ProtocolFindings
  import opened CardCommits
  import C = Cards

  /** The state after some actions. */
  ghost predicate CardLeads(states: seq<CardState>, acts: seq<CardAction>, cs: CardState) {
    IsCardRun(states, acts) && states[|acts|] == cs && CardInv(cs)
  }

  /** One more action that is no commit. */
  lemma CardThen(states: seq<CardState>, acts: seq<CardAction>, cs: CardState, a: CardAction) returns (states': seq<CardState>, cs': CardState)
    requires CardLeads(states, acts, cs) && CardEnabled(cs, a) && CardNext(cs, a).Some? && !a.CommitCards?
    ensures CardNext(cs, a) == Some(cs') && states' == states + [cs'] && CardLeads(states', acts + [a], cs')
  {
    hide CardInv, CardEnabled, CardNext;
    cs' := CardNext(cs, a).value;
    states' := states + [cs'];
    StepRefines(cs, a, cs');
    forall i | 0 <= i < |acts + [a]| ensures CardFollows(states'[i], (acts + [a])[i], states'[i + 1]) {
      if i < |acts| { assert CardFollows(states[i], acts[i], states[i + 1]); }
    }
  }

  /** An action of the protocol. */
  lemma ThenOther(states: seq<CardState>, acts: seq<CardAction>, cs: CardState, p: Action) returns (states': seq<CardState>, cs': CardState)
    requires CardLeads(states, acts, cs) && Enabled(cs.st, p) && !p.Barrier? && !p.Put? && !p.DoCommit? && !p.DoCollect?
    ensures Next(cs.st, p).Some? && cs' == cs.(st := Next(cs.st, p).value)
    ensures states' == states + [cs'] && CardLeads(states', acts + [Other(p)], cs')
  {
    hide CardInv, Enabled, Next;
    InvOfCards(cs);
    ActionKeeps(cs.st, p);
    states', cs' := CardThen(states, acts, cs, Other(p));
  }

  lemma InvOfCards(cs: CardState)
    requires CardInv(cs)
    ensures Inv(cs.st) && WellFormed(cs.st.mem) && |cs.st.threads| == |cs.st.mem.segs| == |cs.written| && |cs.shapes| == cs.st.mem.objects
    ensures forall o :: 0 <= o < |cs.shapes| ==> ShapeOk(cs.shapes[o])
  {
  }

  lemma InvThere(states: seq<CardState>, acts: seq<CardAction>, cs: CardState)
    requires CardLeads(states, acts, cs)
    ensures WellFormed(cs.st.mem) && |cs.st.threads| == |cs.st.mem.segs| == |cs.written| && |cs.shapes| == cs.st.mem.objects
    ensures forall o :: 0 <= o < |cs.shapes| ==> ShapeOk(cs.shapes[o])
  {
    InvOfCards(cs);
  }

  /** A transaction starts and runs the program. */
  lemma StartsOf(states: seq<CardState>, acts: seq<CardAction>, cs: CardState, t: nat)
    returns (states': seq<CardState>, acts': seq<CardAction>, cs': CardState)
    requires |states| > 0 && CardLeads(states, acts, cs) && Calm(cs.st) && At(cs.st, t, Idle, Outside)
    ensures |states'| > 0 && states'[0] == states[0] && CardLeads(states', acts', cs')
    ensures Calm(cs'.st) && At(cs'.st, t, Regular, User) && OthersSame(cs.st, cs'.st, t)
    ensures cs' == cs.(st := cs'.st) && cs'.st.mem == NewVersion(cs.st.mem, t)
  {
    hide CardLeads;
    var s1, c1 := ThenOther(states, acts, cs, Start(t));
    var acts1 := acts + [Other(Start(t))];
    var s2, c2 := ThenOther(s1, acts1, c1, Step(t));
    states', cs' := ThenOther(s2, acts1 + [Other(Step(t))], c2, BumpVersion(t));
    acts' := acts1 + [Other(Step(t))] + [Other(BumpVersion(t))];
  }

  // ----- a commit that loses changes

  /** Segment 1 alone, running its program (or stopped to commit), with nobody else. */
  ghost predicate Alone(cs: CardState, pc: Pc) {
    && |cs.st.threads| == |cs.st.mem.segs| == |cs.written| == 2 && WellFormed(cs.st.mem)
    && !cs.st.pause && !cs.st.unique && cs.st.mutex == (if pc.Stopped? then 1 else 0)
    && cs.st.threads[1].pc == pc && cs.st.threads[1].signal == NoSignal
  }

  /** An object with at least two cards, and the byte x in its second card. */
  ghost predicate TwoCards(cs: CardState, o: nat, x: nat) {
    && o < |cs.shapes| && cs.shapes[o].uses && |cs.shapes[o].b| > 3 && cs.shapes[o].b[2] == x
    && x < |cs.st.mem.owner| && cs.st.mem.owner[x] == o
  }

  /** It is the one object that segment 1 has locked. */
  ghost predicate Held(cs: CardState, o: nat, x: nat, w: C.Written) {
    && TwoCards(cs, o, x) && o < |cs.st.mem.locks| && cs.st.mem.locks[o] == 1 && |cs.st.mem.segs| == |cs.written| == 2
    && cs.st.mem.segs[1].modified == [o] && o in cs.written[1] && cs.written[1][o] == w
  }

  ghost predicate LockedBy1(cs: CardState, o: nat, x: nat, w: C.Written) { Alone(cs, User) && Held(cs, o, x, w) }

  ghost function AfterFull(s: Shape): (w: C.Written)
    requires ShapeOk(s)
    ensures !w.writeBarrier && |w.cards| == s.Cards()
  {
    C.After(C.Locked(s.Cards()), C.Full, s.b, s.end)
  }

  /** The full barrier, a minor collection, the barrier of the first card. */
  ghost function OneCard(s: Shape): (w: C.Written)
    requires ShapeOk(s)
    ensures |w.cards| == s.Cards()
  {
    C.After(C.After(AfterFull(s), C.Collect, s.b, s.end), C.Card(0), s.b, s.end)
  }

  /** The object passes the full barrier. */
  lemma Locks(states: seq<CardState>, acts: seq<CardAction>, cs: CardState, o: nat, x: nat)
    returns (states': seq<CardState>, acts': seq<CardAction>, cs': CardState)
    requires |states| > 0 && CardLeads(states, acts, cs) && Alone(cs, User) && TwoCards(cs, o, x) && o < cs.st.mem.objects
    requires cs.st.mem.locks[o] == 0 && cs.st.mem.segs[1].modified == []
    ensures |states'| > 0 && states'[0] == states[0] && CardLeads(states', acts', cs')
    ensures cs'.shapes == cs.shapes && cs'.st.mem == TakeLock(cs.st.mem, 1, o)
    ensures ShapeOk(cs.shapes[o]) && LockedBy1(cs', o, x, AfterFull(cs.shapes[o]))
  {
    hide CardLeads;
    InvThere(states, acts, cs);
    states', cs' := CardThen(states, acts, cs, Write(1, o, C.Full));
    acts' := acts + [Write(1, o, C.Full)];
  }

  /** The program stores v to byte x. */
  lemma Stores(states: seq<CardState>, acts: seq<CardAction>, cs: CardState, o: nat, x: nat, w: C.Written, v: int)
    returns (states': seq<CardState>, acts': seq<CardAction>, cs': CardState)
    requires |states| > 0 && CardLeads(states, acts, cs) && LockedBy1(cs, o, x, w) && !w.writeBarrier && |w.cards| == cs.shapes[o].Cards()
    ensures |states'| > 0 && states'[0] == states[0] && CardLeads(states', acts', cs')
    ensures cs'.shapes == cs.shapes && cs'.written == cs.written && LockedBy1(cs', o, x, w)
    ensures View(cs'.st.mem, 1, x) == v && Shared(cs'.st.mem) == Shared(cs.st.mem) && cs'.st.mem.committed == cs.st.mem.committed
    ensures cs'.st.mem.segs[1].log == cs.st.mem.segs[1].log + [Op.Store(x, v)] && cs'.st.mem.owner == cs.st.mem.owner
  {
    hide CardLeads;
    InvThere(states, acts, cs);
    var s1, c1 := ThenOther(states, acts, cs, MakePrivate(1, Page(x)));
    var acts1 := acts + [Other(MakePrivate(1, Page(x)))];
    InvThere(s1, acts1, c1);
    states', cs' := CardThen(s1, acts1, c1, CardAction.Store(1, x, v));
    acts' := acts1 + [CardAction.Store(1, x, v)];
  }

  /** A minor collection, and then a card barrier. */
  lemma Marks(states: seq<CardState>, acts: seq<CardAction>, cs: CardState, o: nat, x: nat, w: C.Written)
    returns (states': seq<CardState>, acts': seq<CardAction>, cs': CardState)
    requires |states| > 0 && CardLeads(states, acts, cs) && LockedBy1(cs, o, x, w) && |w.cards| == cs.shapes[o].Cards()
    ensures |states'| > 0 && states'[0] == states[0] && CardLeads(states', acts', cs')
    ensures cs'.shapes == cs.shapes && cs'.st.mem == cs.st.mem
    ensures var b, end := cs.shapes[o].b, cs.shapes[o].end;
      LockedBy1(cs', o, x, C.After(C.After(w, C.Collect, b, end), C.Card(0), b, end))
  {
    hide CardLeads;
    InvThere(states, acts, cs);
    var s1, c1 := CardThen(states, acts, cs, Minor(1));
    InvThere(s1, acts + [Minor(1)], c1);
    states', cs' := CardThen(s1, acts + [Minor(1)], c1, Write(1, o, C.Card(0)));
    acts' := acts + [Minor(1)] + [Write(1, o, C.Card(0))];
  }

  /** The transaction stops the world to commit. */
  lemma Stops(states: seq<CardState>, acts: seq<CardAction>, cs: CardState)
    returns (states': seq<CardState>, acts': seq<CardAction>, cs': CardState)
    requires |states| > 0 && CardLeads(states, acts, cs) && Alone(cs, User)
    ensures |states'| > 0 && states'[0] == states[0] && CardLeads(states', acts', cs')
    ensures cs'.shapes == cs.shapes && cs'.written == cs.written && cs'.st.mem == cs.st.mem && Alone(cs', Stopped(Committing))
    ensures forall o, x, w :: Held(cs, o, x, w) ==> Held(cs', o, x, w)
  {
    hide CardLeads;
    var s1, c1 := ThenOther(states, acts, cs, Call(1, Committing));
    var acts1 := acts + [Other(Call(1, Committing))];
    var s2, c2 := ThenOther(s1, acts1, c1, Step(1));
    var acts2 := acts1 + [Other(Step(1))];
    states', cs' := ThenOther(s2, acts2, c2, Step(1));
    acts' := acts2 + [Other(Step(1))];
  }

  /** What the minor collection and the copying of the commit make of the history. */
  lemma OneCardCopied(s: Shape)
    requires ShapeOk(s) && |s.b| > 3
    ensures s.b[2] !in C.Copied(C.After(OneCard(s), C.Collect, s.b, s.end).cards, s.b, s.end)
  {
    hide C.After, C.AfterAll, C.Copied;
    var w := C.FullThenCard(s.Cards(), s.b, s.end);
    C.LosesChanges(s.Cards(), s.b, s.end);
  }

  /** The commit of such a state. */
  lemma CommitsPart(states: seq<CardState>, acts: seq<CardAction>, cs: CardState, o: nat, x: nat, start: seq<int>) returns (cs': CardState)
    requires |states| > 0 && CardLeads(states, acts, cs) && Alone(cs, Stopped(Committing)) && o < cs.st.mem.objects && x < |cs.st.mem.owner|
    requires cs.st.mem.segs[1].modified == [o] && HasCards(cs, 1, o) && cs.st.mem.owner[x] == o
    requires x !in C.Copied(After(cs, 1, o, C.Collect).cards, cs.shapes[o].b, cs.shapes[o].end)
    requires Serial(cs.st, start) && View(cs.st.mem, 1, x) != Shared(cs.st.mem)[x]
    ensures IsCardRun(states + [cs'], acts + [CommitCards(1)]) && !Serial(cs'.st, start)
    ensures |cs'.st.mem.segs| == 2 && cs'.st.mem.committed == cs.st.mem.committed + [cs.st.mem.segs[1].log]
    ensures |Shared(cs'.st.mem)| == |cs.st.mem.owner| && Shared(cs'.st.mem)[x] == Shared(cs.st.mem)[x]
  {
    hide C.Copied, C.After, Ordered, Commit, Finish, Serial;
    var a := CommitCards(1);
    InvOfCards(cs);
    assert CardEnabled(cs, a);
    ActionKeeps(cs.st, DoCommit(1));
    cs' := CardNext(cs, a).value;
    CommitSerialExactly(cs, 1, cs', start);
    assert cs'.st.mem.segs[0] == PushedCopied(cs, 1, 0);
    forall i | 0 <= i < |acts + [a]| ensures CardFollows((states + [cs'])[i], (acts + [a])[i], (states + [cs'])[i + 1]) {
      if i < |acts| { assert CardFollows(states[i], acts[i], states[i + 1]); }
    }
  }

  lemma Begins(owner: seq<nat>, objects: nat, bytes: seq<int>, shapes: seq<Shape>) returns (states: seq<CardState>, cs: CardState)
    requires |bytes| == |owner| && forall a :: 0 <= a < |owner| ==> owner[a] < objects
    requires ShapesOk(Initial(1, owner, objects, bytes).mem, shapes)
    ensures |states| > 0 && CardsFresh(states[0], 1, owner, objects, bytes) && CardLeads(states, [], cs) && Calm(cs.st)
    ensures At(cs.st, 1, Idle, Outside) && |cs.written| == 2
    ensures cs.shapes == shapes && cs.st.mem == Initial(1, owner, objects, bytes).mem && states[0] == cs
  {
    cs := CardState(Initial(1, owner, objects, bytes), shapes, [map[], map[]]);
    states := [cs];
    FreshInv(states[0], 1, owner, objects, bytes);
  }

  /** All up to the commit. */
  lemma ReachesCommit(owner: seq<nat>, objects: nat, bytes: seq<int>, shapes: seq<Shape>, o: nat, x: nat, v: int)
    returns (states: seq<CardState>, acts: seq<CardAction>, cs: CardState)
    requires |bytes| == |owner| && forall a :: 0 <= a < |owner| ==> owner[a] < objects
    requires ShapesOk(Initial(1, owner, objects, bytes).mem, shapes)
    requires o < objects && shapes[o].uses && |shapes[o].b| > 3 && shapes[o].b[2] == x < |owner| && owner[x] == o
    ensures |states| > 0 && CardsFresh(states[0], 1, owner, objects, bytes) && CardLeads(states, acts, cs) && Alone(cs, Stopped(Committing))
    ensures ShapeOk(shapes[o]) && Held(cs, o, x, OneCard(shapes[o]))
    ensures cs.shapes == shapes && cs.st.mem.owner == owner && cs.st.mem.segs[1].log == [Op.Store(x, v)]
    ensures View(cs.st.mem, 1, x) == v && Shared(cs.st.mem) == bytes && cs.st.mem.committed == []
  {
    hide CardLeads, CardsFresh, C.After;
    var s0, c0 := Begins(owner, objects, bytes, shapes);
    var s1, acts1, c1 := StartsOf(s0, [], c0, 1);
    assert Alone(c1, User);
    var s2, acts2, c2 := Locks(s1, acts1, c1, o, x);
    assert c2.st.mem.segs[1].log == [];
    var s3, acts3, c3 := Stores(s2, acts2, c2, o, x, AfterFull(shapes[o]), v);
    var s4, acts4, c4 := Marks(s3, acts3, c3, o, x, AfterFull(shapes[o]));
    states, acts, cs := Stops(s4, acts4, c4);
  }

  /** A run in which a committed transaction has stored v to x, and memory still has the
      value from before: the full barrier of a large object, a store to its second card,
      a minor collection, the barrier of its first card, and the commit. */
  lemma LosesStore(owner: seq<nat>, objects: nat, bytes: seq<int>, shapes: seq<Shape>, o: nat, x: nat, v: int)
    returns (states: seq<CardState>, acts: seq<CardAction>)
    requires |bytes| == |owner| && forall a :: 0 <= a < |owner| ==> owner[a] < objects
    requires ShapesOk(Initial(1, owner, objects, bytes).mem, shapes)
    requires o < objects && shapes[o].uses && |shapes[o].b| > 3 && shapes[o].b[2] == x < |owner| && owner[x] == o && bytes[x] != v
    ensures IsCardRun(states, acts) && CardsFresh(states[0], 1, owner, objects, bytes)
    ensures var st := states[|acts|].st;
      && !Serial(st, bytes) && st.mem.committed == [[Op.Store(x, v)]]
      && |st.mem.segs| == 2 && |Shared(st.mem)| == |owner| && Shared(st.mem)[x] == bytes[x]
  {
    hide CardLeads, CardsFresh, C.After, C.Copied;
    var s1, acts1, c1 := ReachesCommit(owner, objects, bytes, shapes, o, x, v);
    OneCardCopied(shapes[o]);
    assert Serial(c1.st, bytes);
    var c2 := CommitsPart(s1, acts1, c1, o, x, bytes);
    states, acts := s1 + [c2], acts1 + [CommitCards(1)];
  }

  // ----- a major collection that fails an assertion

  /** Two segments. */
  ghost predicate Pair(cs: CardState) { |cs.st.threads| == |cs.st.mem.segs| == |cs.written| == 3 && WellFormed(cs.st.mem) && !cs.st.unique }

  /** The barrier of a card, and then the full barrier. */
  lemma MarksThenOpens(states: seq<CardState>, acts: seq<CardAction>, cs: CardState, o: nat)
    returns (states': seq<CardState>, acts': seq<CardAction>, cs': CardState)
    requires |states| > 0 && CardLeads(states, acts, cs) && Pair(cs) && At(cs.st, 1, Regular, User)
    requires o < |cs.shapes| && cs.shapes[o].uses && o < |cs.st.mem.locks| && cs.st.mem.locks[o] == 0
    ensures |states'| > 0 && states'[0] == states[0] && CardLeads(states', acts', cs')
    ensures cs'.st == cs.st.(mem := cs'.st.mem) && Pair(cs') && o in cs'.st.mem.segs[1].modified && ListedAndOpen(cs', 1, o)
  {
    hide CardLeads;
    InvThere(states, acts, cs);
    var s1, c1 := CardThen(states, acts, cs, Write(1, o, C.Card(0)));
    InvThere(s1, acts + [Write(1, o, C.Card(0))], c1);
    states', cs' := CardThen(s1, acts + [Write(1, o, C.Card(0))], c1, Write(1, o, C.Full));
    acts' := acts + [Write(1, o, C.Card(0))] + [Write(1, o, C.Full)];
  }

  /** Segment 2 asks for a major collection, and has to wait for segment 1. */
  lemma AsksToCollect(states: seq<CardState>, acts: seq<CardAction>, cs: CardState)
    returns (states': seq<CardState>, acts': seq<CardAction>, cs': CardState)
    requires |states| > 0 && CardLeads(states, acts, cs) && Pair(cs) && Calm(cs.st)
    requires At(cs.st, 1, Regular, User) && At(cs.st, 2, Regular, User) && cs.st.threads[1].sp == SpRunning
    ensures |states'| > 0 && states'[0] == states[0] && CardLeads(states', acts', cs')
    ensures cs' == cs.(st := cs'.st) && cs'.st.mem == cs.st.mem && Pair(cs') && cs'.st.pause && cs'.st.mutex == 0
    ensures cs'.st.threads[1] == cs.st.threads[1].(signal := SigPause)
    ensures cs'.st.threads[2].pc == WaitingOthers(Collecting) && cs'.st.threads[2].signal == SigPause
  {
    hide CardLeads;
    var s1, c1 := ThenOther(states, acts, cs, Call(2, Collecting));
    var acts1 := acts + [Other(Call(2, Collecting))];
    var s2, c2 := ThenOther(s1, acts1, c1, Step(2));
    var acts2 := acts1 + [Other(Step(2))];
    assert c2.st.threads[1].sp == SpRunning && OthersRunning(c2.st, 2);
    states', cs' := ThenOther(s2, acts2, c2, Step(2));
    acts' := acts2 + [Other(Step(2))];
  }

  /** Segment 1 comes to a safe point. */
  lemma PausesThere(states: seq<CardState>, acts: seq<CardAction>, cs: CardState)
    returns (states': seq<CardState>, acts': seq<CardAction>, cs': CardState)
    requires |states| > 0 && CardLeads(states, acts, cs) && Pair(cs) && cs.st.pause && cs.st.mutex == 0
    requires cs.st.threads[1].pc == User && cs.st.threads[1].signal == SigPause
    ensures |states'| > 0 && states'[0] == states[0] && CardLeads(states', acts', cs')
    ensures cs' == cs.(st := cs'.st) && cs'.st.mem == cs.st.mem && Pair(cs') && cs'.st.pause && cs'.st.mutex == 0
    ensures cs'.st.threads[2] == cs.st.threads[2] && cs'.st.threads[1].sp == SpRequestRemoved && cs'.st.threads[1].signal == SigPause
  {
    hide CardLeads;
    var s1, c1 := ThenOther(states, acts, cs, Call(1, Polling));
    states', cs' := ThenOther(s1, acts + [Other(Call(1, Polling))], c1, Step(1));
    acts' := acts + [Other(Call(1, Polling))] + [Other(Step(1))];
  }

  /** Segment 2 has the world stopped. */
  lemma StopsWorld(states: seq<CardState>, acts: seq<CardAction>, cs: CardState)
    returns (states': seq<CardState>, acts': seq<CardAction>, cs': CardState)
    requires |states| > 0 && CardLeads(states, acts, cs) && Pair(cs) && cs.st.pause && cs.st.mutex == 0
    requires cs.st.threads[1].sp == SpRequestRemoved && cs.st.threads[1].signal == SigPause
    requires cs.st.threads[2].pc == WaitingOthers(Collecting) && cs.st.threads[2].signal == SigPause
    ensures |states'| > 0 && states'[0] == states[0] && CardLeads(states', acts', cs')
    ensures cs' == cs.(st := cs'.st) && cs'.st.mem == cs.st.mem && Pair(cs') && cs'.st.threads[2].pc == Stopped(Collecting)
  {
    hide CardLeads;
    var s1, c1 := ThenOther(states, acts, cs, Step(2));
    assert c1.st.threads[2].pc == Counting(Collecting) && !OthersRunning(c1.st, 2);
    states', cs' := ThenOther(s1, acts + [Other(Step(2))], c1, Step(2));
    acts' := acts + [Other(Step(2))] + [Other(Step(2))];
  }

  lemma BeginsPair(owner: seq<nat>, objects: nat, bytes: seq<int>, shapes: seq<Shape>) returns (states: seq<CardState>, cs: CardState)
    requires |bytes| == |owner| && forall a :: 0 <= a < |owner| ==> owner[a] < objects
    requires ShapesOk(Initial(2, owner, objects, bytes).mem, shapes)
    ensures states == [cs] && CardsFresh(cs, 2, owner, objects, bytes) && CardLeads(states, [], cs) && Pair(cs) && Calm(cs.st)
    ensures At(cs.st, 1, Idle, Outside) && At(cs.st, 2, Idle, Outside)
    ensures cs.shapes == shapes && cs.st.mem == Initial(2, owner, objects, bytes).mem
  {
    cs := CardState(Initial(2, owner, objects, bytes), shapes, [map[], map[], map[]]);
    states := [cs];
    FreshInv(cs, 2, owner, objects, bytes);
  }

  /** Both segments up to the major collection. */
  lemma ReachesCollection(owner: seq<nat>, objects: nat, bytes: seq<int>, shapes: seq<Shape>, o: nat)
    returns (states: seq<CardState>, acts: seq<CardAction>, cs: CardState)
    requires |bytes| == |owner| && forall a :: 0 <= a < |owner| ==> owner[a] < objects
    requires ShapesOk(Initial(2, owner, objects, bytes).mem, shapes) && o < objects && shapes[o].uses
    ensures |states| > 0 && CardsFresh(states[0], 2, owner, objects, bytes) && CardLeads(states, acts, cs) && Pair(cs)
    ensures cs.st.threads[2].pc == Stopped(Collecting) && o in cs.st.mem.segs[1].modified && ListedAndOpen(cs, 1, o)
  {
    hide CardLeads, CardsFresh;
    var s0, c0 := BeginsPair(owner, objects, bytes, shapes);
    var s1, acts1, c1 := StartsOf(s0, [], c0, 1);
    assert At(c1.st, 2, Idle, Outside);
    var s2, acts2, c2 := StartsOf(s1, acts1, c1, 2);
    assert At(c2.st, 1, Regular, User);
    var s3, acts3, c3 := MarksThenOpens(s2, acts2, c2, o);
    IsRunning(s3, acts3, c3);
    var s4, acts4, c4 := AsksToCollect(s3, acts3, c3);
    var s5, acts5, c5 := PausesThere(s4, acts4, c4);
    states, acts, cs := StopsWorld(s5, acts5, c5);
  }

  lemma IsRunning(states: seq<CardState>, acts: seq<CardAction>, cs: CardState)
    requires CardLeads(states, acts, cs) && At(cs.st, 1, Regular, User)
    ensures cs.st.threads[1].sp == SpRunning
  {
    InvOfCards(cs);
    RunningUser(cs.st, 1);
  }

  /** A run of two segments that ends in a failed assertion: one marks a card of a large
      object and then passes the full barrier, with nothing young; the other makes a
      major collection. */
  lemma MajorFails(owner: seq<nat>, objects: nat, bytes: seq<int>, shapes: seq<Shape>, o: nat)
    returns (states: seq<CardState>, acts: seq<CardAction>, a: CardAction)
    requires |bytes| == |owner| && forall x :: 0 <= x < |owner| ==> owner[x] < objects
    requires ShapesOk(Initial(2, owner, objects, bytes).mem, shapes) && o < objects && shapes[o].uses
    ensures IsCardRun(states, acts) && CardsFresh(states[0], 2, owner, objects, bytes)
    ensures CardEnabled(states[|acts|], a) && CardNext(states[|acts|], a).None?
  {
    hide CardsFresh, CardNext;
    var cs: CardState;
    states, acts, cs := ReachesCollection(owner, objects, bytes, shapes, o);
    var kinds := [C.Collect, C.Major(false), C.Collect];
    a := MajorCards(2, kinds);
    EachHasCards(cs, 0);
    EachHasCards(cs, 1);
    EachHasCards(cs, 2);
    assert CardEnabled(cs, a);
    CardFailsExactly(cs, a);
    assert kinds[1].Major?;
  }
}
