/** What the C4 commit protocol guarantees in every run (c4/et.c): commits
    serialize in the order of their times, every live transaction sees one
    snapshot, an inevitable transaction is alone and never aborts, and the locks
    never deadlock. */
module TimestampTheorems {
  import opened Wrappers
  import opened TrieKeys
  import opened TrieOrder
  import opened Timestamps
  import opened TimestampSafety
  import opened TimestampSteps
  import opened TimestampCommit

  // ----- every step keeps the invariant

  lemma SimpleKeeps(s: State, a: Action)
    requires Inv(s) && Enabled(s, a)
    requires a.Begin? || a.BeginInevitable? || a.BecomeInevitable? || a.Abort? || a.TakeMutex? || a.Mark? || a.StartRead? || a.OwnCopy? || a.Write?
    ensures Inv(Do(s, a))
  {
    hide Inv, LoopOrder, ThreadOk, Listed;
    Facts(s, a.t);
    var th := s.threads[a.t];
    match a
    case Begin(t) => BeginKeeps(s, t);
    case BeginInevitable(t) => BeginKeeps(s, t);
    case BecomeInevitable(t) => BecomeKeeps(s, t);
    case Abort(t) => AbortKeeps(s, t);
    case TakeMutex(t) => TakeMutexKeeps(s, t); assert Do(s, a) == SetThread(s.(mutex := Some(t)), t, th.(pc := Marking(th.pc.anew)));
    case Mark(t) => if th.pc.anew || th.start == s.time { MarkKeeps(s, t); } else { MarkAndCheckKeeps(s, t); }
    case StartRead(t, p) => StartReadKeeps(s, t, p);
    case OwnCopy(t) => OwnCopyKeeps(s, t);
    case Write(t, p, val) => WriteKeeps(s, t, p, val);
  }

  lemma BarrierKeeps(s: State, a: Action)
    requires Inv(s) && Enabled(s, a) && (a.Hop? || a.TakeRead? || a.TooRecent? || a.CheckOne? || a.CheckDone? || a.CheckFails?)
    ensures Inv(Do(s, a))
  {
    hide Inv, LoopOrder, ThreadOk;
    var t, th := a.t, s.threads[a.t];
    match a
    case Hop(_) => if th.pc.prev.None? { HopKeeps(s, t); } else { ShortcutKeeps(s, t); }
    case TakeRead(_) => TakeReadKeeps(s, t);
    case TooRecent(_) => TooRecentKeeps(s, t);
    case CheckOne(_) => CheckOneKeeps(s, t);
    case CheckDone(_) =>
      if th.pc.CheckRead? { ReadCheckedKeeps(s, t); } else if th.pc.CheckInev? { InevCheckedKeeps(s, t); } else { ValidatedCommits(s, t); }
    case CheckFails(_) =>
      NotInevitable(s, t);
      if th.pc.CheckRead? { AbortKeeps(s, t); } else if th.pc.CheckInev? { RevertKeeps(s, t); } else { CancelKeeps(s, t, false); }
  }

  /** An inevitable transaction does not validate any more. */
  lemma NotInevitable(s: State, t: nat)
    requires Inv(s) && t < |s.threads|
    ensures s.threads[t].inev ==> !Checking(s.threads[t].pc)
  {
    assert ThreadOk(s, t);
  }

  lemma ValidatedCommits(s: State, t: nat)
    requires Inv(s) && Enabled(s, CheckDone(t)) && s.threads[t].pc.CheckCommit?
    ensures CanCommit(s, s, t, s.threads[t].time) && Inv(Commit(s, t, s.threads[t].time))
  {
    Facts(s, t);
    var th := s.threads[t];
    forall v: Key | v in th.seen ensures SafeAt(s, v, th.time) {
      var i: nat :| i < |th.seen| && th.seen[i] == v;
    }
    CommitKeeps(s, s, t, th.time);
  }

  lemma StartSafe(s: State, t: nat, v: Key)
    requires ThreadOk(s, t) && !s.threads[t].pc.CheckRead? && !s.threads[t].pc.CheckInev? && v in s.threads[t].seen
    ensures SafeAt(s, v, s.threads[t].start)
  {
    hide SafeAt;
    var i: nat :| i < |s.threads[t].seen| && s.threads[t].seen[i] == v;
  }

  /** Nobody committed since the start: no need to validate. */
  lemma UnvalidatedCommits(s: State, t: nat)
    requires Inv(s) && Enabled(s, Advance(t)) && !s.threads[t].inev && s.time % 2 == 0 && s.time == s.threads[t].start
    ensures Inv(Commit(s.(time := s.time + 2), t, s.time))
  {
    Facts(s, t);
    NoSuchCommit(s, s.time);
    forall v: Key | v in s.threads[t].seen ensures SafeAt(s, v, s.time) { StartSafe(s, t, v); }
    CommitKeeps(s, s.(time := s.time + 2), t, s.time);
  }

  lemma InevitableTime(s: State, t: nat)
    requires Inv(s) && t < |s.threads| && s.threads[t].inev
    ensures var start := s.threads[t].start;
      s.time == start + 1 && start % 2 == 0 && 2 <= start && s.mutex == Some(t) && start !in s.log && !Checking(s.threads[t].pc)
  {
    hide HeadsOk, VersionsOk, LocksOk, PlaceOk, SnapshotOk, SafeAt;
    assert ThreadOk(s, t);
    NoSuchCommit(s, s.threads[t].start);
  }

  lemma InevitableCanCommit(s: State, t: nat)
    requires Inv(s) && Enabled(s, Advance(t)) && s.threads[t].inev
    ensures CanCommit(s, s.(time := s.threads[t].start + 2, mutex := None), t, s.threads[t].start)
  {
    hide Inv, LoopOrder, SafeAt, Held;
    Facts(s, t);
    InevitableTime(s, t);
    forall v: Key | v in s.threads[t].seen ensures SafeAt(s, v, s.threads[t].start) { StartSafe(s, t, v); }
  }

  lemma InevitableCommits(s: State, t: nat)
    requires Inv(s) && Enabled(s, Advance(t)) && s.threads[t].inev
    ensures s.time == s.threads[t].start + 1 && Inv(Commit(s.(time := s.threads[t].start + 2, mutex := None), t, s.threads[t].start))
  {
    hide Inv, CanCommit;
    InevitableTime(s, t);
    InevitableCanCommit(s, t);
    CommitKeeps(s, s.(time := s.threads[t].start + 2, mutex := None), t, s.threads[t].start);
  }

  lemma AdvancedKeeps(s: State, t: nat)
    requires Inv(s) && Enabled(s, Advance(t))
    ensures Inv(Do(s, Advance(t)))
  {
    hide Inv, LoopOrder, ThreadOk, Commit;
    if s.threads[t].inev {
      InevitableCommits(s, t);
    } else if s.time % 2 == 1 {
      CancelKeeps(s, t, true);
    } else if s.time == s.threads[t].start {
      UnvalidatedCommits(s, t);
    } else {
      AdvanceKeeps(s, t);
    }
  }

  lemma PublishedDone(s: State, t: nat)
    requires Inv(s) && Enabled(s, PublishDone(t))
    ensures !s.threads[t].inev && Held(s.threads[t]) == []
  {
    assert ThreadOk(s, t);
  }

  lemma CanceledDone(s: State, t: nat)
    requires Inv(s) && Enabled(s, CancelDone(t))
    ensures !s.threads[t].inev && Held(s.threads[t]) == []
  {
    assert ThreadOk(s, t);
    NoneHeld(s, t);
  }

  lemma WaiterOrder(s: State, t: nat)
    requires Inv(s) && Enabled(s, MutexFree(t))
    ensures LoopOrder(C4Tree, s.threads[t].order, s.threads[t].writes.Keys)
  {
    assert ThreadOk(s, t);
  }

  lemma LockingKeeps(s: State, a: Action)
    requires Inv(s) && Enabled(s, a)
    requires a.StartCommit? || a.Lock? || a.LockFails? || a.AllLocked? || a.CancelOne? || a.CancelDone? || a.MutexFree? || a.PublishOne? || a.PublishDone?
    ensures Inv(Do(s, a))
  {
    hide Inv, LoopOrder, ThreadOk;
    var t, th := a.t, s.threads[a.t];
    match a
    case StartCommit(_, order) => StartCommitKeeps(s, t, order);
    case Lock(_) => LockKeeps(s, t);
    case LockFails(_) => LockFailsOnce(s, t); CancelKeeps(s, t, false);
    case AllLocked(_) => AllLockedKeeps(s, t);
    case CancelOne(_) => CancelOneKeeps(s, t);
    case CancelDone(_) =>
      CanceledDone(s, t);
      if th.pc.retry { RetryKeeps(s, t); } else { AbortKeeps(s, t); }
    case MutexFree(_) => WaiterOrder(s, t); StartCommitKeeps(s, t, th.order);
    case PublishOne(_, copy) => PublishKeeps(s, t, copy);
    case PublishDone(_) => PublishedDone(s, t); AbortKeeps(s, t);
  }

  lemma ActionKeeps(s: State, a: Action)
    requires Inv(s) && Enabled(s, a)
    ensures Inv(Do(s, a))
  {
    hide Inv, Enabled, Do;
    if a.Advance? {
      AdvancedKeeps(s, a.t);
    } else if a.Hop? || a.TakeRead? || a.TooRecent? || a.CheckOne? || a.CheckDone? || a.CheckFails? {
      BarrierKeeps(s, a);
    } else if a.StartCommit? || a.Lock? || a.LockFails? || a.AllLocked? || a.CancelOne? || a.CancelDone? || a.MutexFree? || a.PublishOne? || a.PublishDone? {
      LockingKeeps(s, a);
    } else {
      SimpleKeeps(s, a);
    }
  }

  lemma {:induction false} RunKeepsInv(run: seq<State>, acts: seq<Action>, i: nat)
    requires Run(run, acts) && i < |run|
    ensures Inv(run[i])
  {
    hide Inv, Enabled, Do;
    if i == 0 {
      InitInv(run[0]);
    } else {
      RunKeepsInv(run, acts, i - 1);
      assert Enabled(run[i - 1], acts[i - 1]) && run[i] == Do(run[i - 1], acts[i - 1]);
      ActionKeeps(run[i - 1], acts[i - 1]);
    }
  }

  // ----- serializability

  /** A version that is current before time c holds the value that the commits before
      c, run one after the other, leave in the object. */
  lemma {:induction false} CurrentValue(s: State, v: Key, c: int)
    requires VersionOk(s, v) && s.info[v].rev < c && c % 2 == 0 && (v in s.sup ==> c < s.sup[v])
    ensures ValueAt(s, c, s.info[v].obj) == Some(s.info[v].val)
    decreases c
  {
    if c > s.info[v].rev + 1 {
      assert c - 2 in s.log ==> s.log[c - 2] == s.log[c - 2];
      CurrentValue(s, v, c - 2);
    }
  }

  /** Commits serialize in the order of their times, in every run. */
  lemma Serializability(run: seq<State>, acts: seq<Action>, i: nat)
    requires Run(run, acts) && i < |run|
    ensures Serial(run[i])
  {
    RunKeepsInv(run, acts, i);
    CommittedSerial(run[i]);
  }

  lemma CommittedSerial(s: State)
    requires Inv(s)
    ensures Serial(s)
  {
    forall c: int, v: Key | c in s.log && v in s.log[c].seen ensures v in s.info && ValueAt(s, c, s.info[v].obj) == Some(s.info[v].val) {
      assert LogOk(s, c) && SafeAt(s, v, c);
      assert VersionOk(s, v);
      CurrentValue(s, v, c);
    }
  }

  /** A live transaction sees one snapshot, that of its start time, also after the
      start time was moved forward; while the reads are validated, what was already
      checked is of the new start time. */
  lemma SnapshotConsistent(run: seq<State>, acts: seq<Action>, i: nat, t: nat, j: nat)
    requires Run(run, acts) && i < |run| && t < |run[i].threads| && j < |run[i].threads[t].seen|
    requires run[i].threads[t].pc.CheckRead? || run[i].threads[t].pc.CheckInev? ==> j < run[i].threads[t].k
    ensures var s, th := run[i], run[i].threads[t];
      th.seen[j] in s.info && ValueAt(s, th.start, s.info[th.seen[j]].obj) == Some(s.info[th.seen[j]].val)
  {
    RunKeepsInv(run, acts, i);
    var s, th := run[i], run[i].threads[t];
    assert ThreadOk(s, t);
    assert SafeAt(s, th.seen[j], th.start);
    assert VersionOk(s, th.seen[j]);
    CurrentValue(s, th.seen[j], th.start);
  }

  /** What memory shows is what the commits leave: an unlocked version that is not
      replaced has the latest value. */
  lemma MemoryIsLatest(run: seq<State>, acts: seq<Action>, i: nat, v: Key, c: int)
    requires Run(run, acts) && i < |run| && v in run[i].heads && run[i].heads[v].Rev? && c % 2 == 0 && run[i].time <= c
    ensures v in run[i].info && ValueAt(run[i], c, run[i].info[v].obj) == Some(run[i].info[v].val)
  {
    RunKeepsInv(run, acts, i);
    VersionFacts(run[i], v);
    CurrentValue(run[i], v, c);
  }

  // ----- inevitable transactions

  /** There is at most one; nobody else commits meanwhile. */
  lemma OneInevitable(run: seq<State>, acts: seq<Action>, i: nat, t: nat, u: nat)
    requires Run(run, acts) && i < |run| && t < |run[i].threads| && u < |run[i].threads|
    requires run[i].threads[t].inev && (run[i].threads[u].inev || run[i].threads[u].pc.CheckInev?)
    ensures t == u && run[i].time == run[i].threads[t].start + 1
  {
    RunKeepsInv(run, acts, i);
    assert ThreadOk(run[i], t) && ThreadOk(run[i], u);
  }

  /** It never aborts: it meets no version that is too recent, fails no validation,
      and finds nothing replaced that it wants to lock; its commit finds the time
      as it left it. */
  lemma InevitableNeverAborts(run: seq<State>, acts: seq<Action>, i: nat, a: Action)
    requires Run(run, acts) && i < |run| && Enabled(run[i], a) && run[i].threads[a.t].inev
    ensures !a.Abort? && !a.TooRecent? && !a.CheckFails? && !a.LockFails?
    ensures a.Advance? ==> run[i].time == run[i].threads[a.t].start + 1
  {
    hide Inv, LoopOrder;
    RunKeepsInv(run, acts, i);
    Facts(run[i], a.t);
    var s, th := run[i], run[i].threads[a.t];
    NotInevitable(s, a.t);
    if a.LockFails? { LockFailsOnce(s, a.t); }
    NothingTooRecent(s, a);
  }

  lemma NothingTooRecent(s: State, a: Action)
    requires Inv(s) && Enabled(s, a) && s.threads[a.t].inev
    ensures !a.TooRecent?
  {
    hide Inv, LoopOrder;
    Facts(s, a.t);
    if s.threads[a.t].pc.Reading? {
      var p := s.threads[a.t].pc.p;
      VersionFacts(s, p);
      InevitableRecent(s, a.t, p);
    }
  }

  // ----- locks

  /** The versions locked are those of a stretch of the write list; before any is
      released, of its beginning. */
  lemma LocksArePrefix(run: seq<State>, acts: seq<Action>, i: nat, t: nat, v: Key)
    requires Run(run, acts) && i < |run| && t < |run[i].threads| && v in run[i].info
    ensures var s, th := run[i], run[i].threads[t];
      && v in s.heads && (s.heads[v] == Locked(t) <==> v in Held(th))
      && (Held(th) != [] ==> th.lo <= th.hi <= |th.order| && Held(th) == th.order[th.lo..th.hi] && LoopOrder(C4Tree, th.order, th.writes.Keys))
      && (Held(th) != [] && !th.pc.Canceling? && !th.pc.Publishing? ==> th.lo == 0)
  {
    RunKeepsInv(run, acts, i);
    VersionFacts(run[i], v);
    assert ThreadOk(run[i], t);
  }

  /** When CancelLocks is done, whether all locks had been taken or only some, each
      version of the write list that was not replaced has its own revision again,
      or is locked by somebody else. */
  lemma CancelRestores(run: seq<State>, acts: seq<Action>, i: nat, t: nat, v: Key)
    requires Run(run, acts) && i < |run| && Enabled(run[i], CancelDone(t)) && v in run[i].info
    ensures var s, s' := run[i], Do(run[i], CancelDone(t));
      && v in s'.heads && s'.heads[v] != Locked(t)
      && (s'.heads[v].Rev? ==> s'.heads[v].time == s.info[v].rev)
      && (s'.heads[v].Next? ==> v in s.sup)
  {
    hide Inv, Held, Newest, Enabled;
    RunKeepsInv(run, acts, i);
    VersionFacts(run[i], v);
    CanceledDone(run[i], t);
    CancelLeaves(run[i], t);
  }

  lemma CancelLeaves(s: State, t: nat)
    requires Enabled(s, CancelDone(t))
    ensures Do(s, CancelDone(t)).heads == s.heads && t < |s.threads|
  {
  }

  /** t can go on only when u did something. */
  ghost predicate Waits(s: State, t: nat, u: nat) {
    t < |s.threads| && u < |s.threads| && (WaitsForLock(s, t, u) || (s.mutex == Some(u) && WantsMutex(s.threads[t].pc)))
  }

  ghost predicate WantsMutex(pc: Pc) { pc.WantInev? || pc.WaitInev? }

  ghost predicate WaitsForLock(s: State, t: nat, u: nat)
    requires t < |s.threads|
  {
    var th := s.threads[t];
    || (th.pc.Acquiring? && th.hi < |th.order| && th.order[th.hi] in s.heads && s.heads[th.order[th.hi]] == Locked(u))
    || (th.pc.Reading? && th.pc.p !in th.writes && th.pc.p in s.heads && s.heads[th.pc.p] == Locked(u))
    || ((th.pc.CheckRead? || th.pc.CheckInev?) && th.k < |th.seen| && th.seen[th.k] in s.heads && s.heads[th.seen[th.k]] == Locked(u))
  }

  /** Who holds a lock and waits, waits for a lock that is later in the order of the loops. */
  lemma WaitsForLater(s: State, t: nat, u: nat, w: nat)
    requires Inv(s) && Waits(s, t, u) && WaitsForLock(s, t, u) && Waits(s, u, w)
    ensures s.threads[u].pc.Acquiring? && s.threads[u].hi < |s.threads[u].order| && WaitsForLock(s, u, w)
    ensures s.threads[t].pc.Acquiring? && s.threads[t].hi < |s.threads[t].order| ==>
      Before(C4Tree, s.threads[t].order[s.threads[t].hi], s.threads[u].order[s.threads[u].hi])
  {
    hide Inv, Before, HeadOk, VersionOk, TimesOk, PlaceOk, SnapshotOk;
    var v := LockWaited(s, t, u);
    HolderHolds(s, u, v);
    var th := s.threads[u];
    var j: nat :| j < th.hi && j < |th.order| && th.order[j] == v;
    assert th.pc.Acquiring? ==> th.hi < |th.order|;
  }

  lemma LockWaited(s: State, t: nat, u: nat) returns (v: Key)
    requires Inv(s) && t < |s.threads| && WaitsForLock(s, t, u)
    ensures v in s.heads && s.heads[v] == Locked(u) && v in s.info
    ensures s.threads[t].pc.Acquiring? ==> s.threads[t].hi < |s.threads[t].order| && v == s.threads[t].order[s.threads[t].hi]
  {
    var th := s.threads[t];
    v := if th.pc.Acquiring? then th.order[th.hi] else if th.pc.Reading? then th.pc.p else th.seen[th.k];
  }

  /** A lock that is held was taken before the cursor. */
  lemma HeldBelow(th: Thread, v: Key)
    requires v in Held(th)
    ensures Locking(th.pc) && th.hi <= |th.order| && exists j: nat :: j < th.hi && j < |th.order| && th.order[j] == v
  {
    var k: nat :| k < |Held(th)| && Held(th)[k] == v;
    assert th.order[th.lo + k] == v;
  }

  lemma LockIsHeld(s: State, u: nat, v: Key)
    requires Inv(s) && u < |s.threads| && v in s.info && v in s.heads && s.heads[v] == Locked(u)
    ensures v in Held(s.threads[u])
  {
    hide Inv, Held, LoopOrder, Newest, VersionOk, LastOk;
    VersionFacts(s, v);
  }

  lemma HolderOrder(s: State, u: nat)
    requires Inv(s) && u < |s.threads| && Locking(s.threads[u].pc)
    ensures LoopOrder(C4Tree, s.threads[u].order, s.threads[u].writes.Keys)
  {
    hide Inv, Held, LoopOrder, TimesOk, PlaceOk, SnapshotOk;
    Facts(s, u);
  }

  lemma HolderHolds(s: State, u: nat, v: Key)
    requires Inv(s) && u < |s.threads| && v in s.info && v in s.heads && s.heads[v] == Locked(u)
    ensures Locking(s.threads[u].pc) && v in Held(s.threads[u]) && s.threads[u].hi <= |s.threads[u].order|
    ensures LoopOrder(C4Tree, s.threads[u].order, s.threads[u].writes.Keys)
    ensures exists j: nat :: j < s.threads[u].hi && j < |s.threads[u].order| && s.threads[u].order[j] == v
  {
    hide Inv, Held, LoopOrder;
    LockIsHeld(s, u, v);
    HeldBelow(s.threads[u], v);
    HolderOrder(s, u);
  }

  ghost predicate WaitChain(s: State, chain: seq<nat>) {
    |chain| > 1 && forall i :: 0 <= i < |chain| - 1 ==> Waits(s, chain[i], chain[i + 1])
  }

  function Wanted(th: Thread): Key {
    if th.hi < |th.order| then th.order[th.hi] else NO_KEY
  }

  /** Once a lock is waited for, only locks are, ever later ones. */
  lemma {:induction false} ChainClimbs(s: State, chain: seq<nat>, j: nat)
    requires Inv(s) && WaitChain(s, chain) && j < |chain| - 1 && chain[0] < |s.threads| && WaitsForLock(s, chain[0], chain[1])
    ensures chain[j] < |s.threads| && WaitsForLock(s, chain[j], chain[j + 1])
    ensures var th, first := s.threads[chain[j]], s.threads[chain[0]];
      j > 0 ==> th.pc.Acquiring? && th.hi < |th.order| && (first.pc.Acquiring? && first.hi < |first.order| ==> Before(C4Tree, Wanted(first), Wanted(th)))
  {
    hide Inv, Before, WaitsForLock;
    if j > 0 {
      ChainClimbs(s, chain, j - 1);
      assert Waits(s, chain[j - 1], chain[j]) && Waits(s, chain[j], chain[j + 1]);
      WaitsForLater(s, chain[j - 1], chain[j], chain[j + 1]);
      var first, prev, th := s.threads[chain[0]], s.threads[chain[j - 1]], s.threads[chain[j]];
      if j > 1 && first.pc.Acquiring? && first.hi < |first.order| { Transitive(C4Tree, Wanted(first), Wanted(prev), Wanted(th)); }
    }
  }

  /** Waiting never goes in a circle: the locks are taken in the same order by all,
      and who waits for the mutex holds no lock. */
  lemma NoDeadlock(run: seq<State>, acts: seq<Action>, i: nat, chain: seq<nat>)
    requires Run(run, acts) && i < |run| && WaitChain(run[i], chain)
    ensures chain[0] != chain[|chain| - 1]
  {
    hide Inv, WaitsForLock, Before;
    RunKeepsInv(run, acts, i);
    var s := run[i];
    assert Waits(s, chain[0], chain[1]);
    if WaitsForLock(s, chain[0], chain[1]) {
      LockCircle(s, chain);
      Irreflexive(C4Tree, Wanted(s.threads[chain[0]]));
    } else {
      MutexCircle(s, chain);
    }
  }

  /** Nobody who waits for the mutex is waited for. */
  lemma MutexCircle(s: State, chain: seq<nat>)
    requires Inv(s) && WaitChain(s, chain) && chain[0] < |s.threads| && !WaitsForLock(s, chain[0], chain[1])
    ensures chain[0] != chain[|chain| - 1]
  {
    hide Inv, WaitsForLock, Before;
    var first, last := chain[0], chain[|chain| - 2];
    assert Waits(s, first, chain[1]) && Waits(s, last, chain[|chain| - 1]);
    OwnerNeverWants(s, first);
    LockHolderNeverWants(s, last, first);
  }

  lemma OwnerNeverWants(s: State, t: nat)
    requires Inv(s) && t < |s.threads|
    ensures WantsMutex(s.threads[t].pc) ==> s.mutex != Some(t)
  {
    if s.mutex == Some(t) { OwnerHasIt(s, t); }
  }

  lemma LockHolderNeverWants(s: State, t: nat, u: nat)
    requires Inv(s) && t < |s.threads| && u < |s.threads|
    ensures WaitsForLock(s, t, u) ==> !WantsMutex(s.threads[u].pc)
  {
    hide Inv, Held;
    if WaitsForLock(s, t, u) {
      var v := LockWaited(s, t, u);
      HolderHolds(s, u, v);
    }
  }

  lemma OwnerHasIt(s: State, t: nat)
    requires Inv(s) && s.mutex == Some(t)
    ensures t < |s.threads| && !WantsMutex(s.threads[t].pc)
  {
    assert MutexOk(s);
    assert ThreadOk(s, t);
  }

  lemma LockCircle(s: State, chain: seq<nat>)
    requires Inv(s) && WaitChain(s, chain) && chain[0] < |s.threads| && WaitsForLock(s, chain[0], chain[1])
    ensures chain[0] == chain[|chain| - 1] ==> Before(C4Tree, Wanted(s.threads[chain[0]]), Wanted(s.threads[chain[0]]))
  {
    hide Inv, WaitsForLock, Before;
    var n := |chain|;
    if chain[0] == chain[n - 1] {
      ChainClimbs(s, chain, n - 2);
      assert Waits(s, chain[n - 2], chain[0]) && Waits(s, chain[0], chain[1]);
      WaitsForLater(s, chain[n - 2], chain[0], chain[1]);
      var first, last := s.threads[chain[0]], s.threads[chain[n - 2]];
      if n > 2 { Transitive(C4Tree, Wanted(first), Wanted(last), Wanted(first)); }
    }
  }

  // ----- somebody can always go on

  ghost predicate CanMove(s: State, u: nat) {
    u < |s.threads| && !s.threads[u].pc.Idle? && exists a: Action :: a.t == u && Enabled(s, a)
  }

  ghost predicate MemoryLeft(s: State) {
    exists copy: Key :: IsKey(copy) && copy !in s.info && copy !in s.heads
  }

  lemma ListedAll(s: State, u: nat)
    requires ThreadOk(s, u) && Locking(s.threads[u].pc)
    ensures Listed(s, s.threads[u])
  {
    hide Held, TimesOk, PlaceOk, SnapshotOk;
    var th := s.threads[u];
    WritesSeen(s, u);
    forall i | 0 <= i < |th.order| ensures th.order[i] in s.info && th.order[i] in th.writes { assert th.order[i] in th.order; }
  }

  lemma WritesSeen(s: State, u: nat)
    requires ThreadOk(s, u)
    ensures forall v: Key :: v in s.threads[u].writes ==> v in s.info
  {
    hide LocksOk, PlaceOk, SnapshotOk, LoopOrder, Held;
  }

  lemma TimingMoves(s: State, u: nat)
    requires Inv(s) && u < |s.threads| && s.threads[u].pc.Timing?
    ensures CanMove(s, u)
  {
    hide Inv, ThreadOk, Listed;
    Facts(s, u);
    ListedAll(s, u);
    assert Enabled(s, Advance(u));
  }

  lemma CancelingMoves(s: State, u: nat)
    requires u < |s.threads| && s.threads[u].pc.Canceling?
    ensures CanMove(s, u)
  {
    assert Enabled(s, CancelOne(u)) || Enabled(s, CancelDone(u));
  }

  lemma CommitterMoves(s: State, u: nat)
    requires Inv(s) && u < |s.threads| && s.threads[u].pc.CheckCommit?
    ensures CanMove(s, u)
  {
    hide Inv, Listed, LocksOk, PlaceOk, SnapshotOk, Held, LoopOrder;
    Facts(s, u);
    ListedAll(s, u);
    var th := s.threads[u];
    if th.k < |th.seen| {
      assert th.seen[th.k] in th.seen;
      assert Enabled(s, CheckOne(u)) || Enabled(s, CheckFails(u));
    } else {
      assert Enabled(s, CheckDone(u));
    }
  }

  lemma PublisherMoves(s: State, u: nat)
    requires Inv(s) && u < |s.threads| && s.threads[u].pc.Publishing? && MemoryLeft(s)
    ensures CanMove(s, u)
  {
    hide Inv, TimesOk, PlaceOk, SnapshotOk, Held, LoopOrder;
    Facts(s, u);
    ListedAll(s, u);
    if s.threads[u].lo < |s.threads[u].order| {
      var copy: Key :| IsKey(copy) && copy !in s.info && copy !in s.heads;
      assert Enabled(s, PublishOne(u, copy));
    } else {
      assert Enabled(s, PublishDone(u));
    }
  }

  /** A thread in the read barrier goes on, or waits for a lock. */
  lemma ReaderMoves(s: State, u: nat)
    requires Inv(s) && u < |s.threads| && s.threads[u].pc.Reading?
    ensures CanMove(s, u) || exists w: nat :: WaitsForLock(s, u, w)
  {
    hide Inv, LocksOk, SnapshotOk, Held, LoopOrder, LogOk, VersionOk, Listed;
    Facts(s, u);
    var th := s.threads[u];
    if s.heads[th.pc.p].Next? {
      assert Enabled(s, Hop(u));
    } else if th.pc.p in th.writes {
      assert Enabled(s, OwnCopy(u));
    } else if s.heads[th.pc.p].Rev? {
      assert Enabled(s, TakeRead(u)) || Enabled(s, TooRecent(u));
    } else {
      assert WaitsForLock(s, u, s.heads[th.pc.p].owner);
    }
  }

  /** A thread that checks its reads goes on, or waits for a lock. */
  lemma CheckerMoves(s: State, u: nat)
    requires Inv(s) && u < |s.threads| && (s.threads[u].pc.CheckRead? || s.threads[u].pc.CheckInev?)
    ensures CanMove(s, u) || exists w: nat :: WaitsForLock(s, u, w)
  {
    hide Inv, LocksOk, SnapshotOk, Held, LoopOrder, LogOk, VersionOk, Listed;
    Facts(s, u);
    var th := s.threads[u];
    if th.k == |th.seen| {
      assert Enabled(s, CheckDone(u));
    } else {
      assert th.seen[th.k] in th.seen;
      if s.heads[th.seen[th.k]].Locked? {
        assert WaitsForLock(s, u, s.heads[th.seen[th.k]].owner);
      } else {
        assert Enabled(s, CheckOne(u)) || Enabled(s, CheckFails(u));
      }
    }
  }

  lemma LockerMoves(s: State, u: nat)
    requires Inv(s) && u < |s.threads| && s.threads[u].pc.Acquiring?
    ensures CanMove(s, u) || exists w: nat :: WaitsForLock(s, u, w)
  {
    hide Inv, PlaceOk, SnapshotOk, Held, LoopOrder, Listed;
    Facts(s, u);
    ListedAll(s, u);
    OrderInfo(s, s.threads[u]);
    var th := s.threads[u];
    if th.hi == |th.order| {
      assert Enabled(s, AllLocked(u));
    } else if s.heads[th.order[th.hi]].Locked? {
      assert WaitsForLock(s, u, s.heads[th.order[th.hi]].owner);
    } else {
      assert Enabled(s, Lock(u)) || Enabled(s, LockFails(u));
    }
  }

  lemma OrderInfo(s: State, th: Thread)
    requires Listed(s, th)
    ensures forall i :: 0 <= i < |th.order| ==> th.order[i] in s.info
  {
  }

  /** Any keys can be listed in the order of the loops. */
  lemma {:induction false} OrderExists(keys: set<Key>) returns (order: seq<Key>)
    requires forall v: Key :: v in keys ==> IsKey(v)
    ensures LoopOrder(C4Tree, order, keys)
    decreases |keys|
  {
    hide Before, LoopOrder;
    if keys == {} {
      assert LoopOrder(C4Tree, [], {}) by { EmptyOrder(); }
      order := [];
    } else {
      var x: Key :| x in keys;
      var rest := OrderExists(keys - {x});
      var k := PlaceFor(rest, x);
      order := rest[..k] + [x] + rest[k..];
      OrderInserted(rest, k, x, keys);
    }
  }

  lemma EmptyOrder()
    ensures LoopOrder(C4Tree, [], {})
  {
  }

  lemma PlaceFor(rest: seq<Key>, x: Key) returns (k: nat)
    ensures k <= |rest| && (forall i :: 0 <= i < k ==> Before(C4Tree, rest[i], x)) && (k < |rest| ==> !Before(C4Tree, rest[k], x))
  {
    hide Before;
    k := 0;
    while k < |rest| && Before(C4Tree, rest[k], x)
      invariant 0 <= k <= |rest| && forall i :: 0 <= i < k ==> Before(C4Tree, rest[i], x)
    {
      k := k + 1;
    }
  }

  lemma OrderInserted(rest: seq<Key>, k: nat, x: Key, keys: set<Key>)
    requires x in keys && LoopOrder(C4Tree, rest, keys - {x}) && k <= |rest| && forall v: Key :: v in keys ==> IsKey(v)
    requires (forall i :: 0 <= i < k ==> Before(C4Tree, rest[i], x)) && (k < |rest| ==> !Before(C4Tree, rest[k], x))
    ensures LoopOrder(C4Tree, rest[..k] + [x] + rest[k..], keys)
  {
    hide Before;
    var order := rest[..k] + [x] + rest[k..];
    forall i | k <= i < |rest| ensures Before(C4Tree, x, rest[i]) {
      assert rest[k] in rest && rest[i] in rest;
      Trichotomy(C4Tree, rest[k], x);
      if i > k { Transitive(C4Tree, x, rest[k], rest[i]); }
    }
    forall i, j | 0 <= i < j < |order| ensures Before(C4Tree, order[i], order[j]) {
      var a, b := if i < k then i else i - 1, if j < k then j else j - 1;
      assert i != k ==> order[i] == rest[a];
      assert j != k ==> order[j] == rest[b];
    }
    forall v: Key ensures v in order <==> v in keys { assert v in order <==> v in rest || v == x by { assert rest == rest[..k] + rest[k..]; } }
  }

  lemma RunnerMoves(s: State, u: nat)
    requires Inv(s) && u < |s.threads| && s.threads[u].pc.Running?
    ensures CanMove(s, u)
  {
    hide Inv, LoopOrder, LocksOk, PlaceOk, SnapshotOk;
    Facts(s, u);
    WritesSeen(s, u);
    forall v: Key | v in s.threads[u].writes.Keys ensures IsKey(v) {
      VersionFacts(s, v);
    }
    var order := OrderExists(s.threads[u].writes.Keys);
    assert Enabled(s, StartCommit(u, order));
  }

  /** Whoever is in a transaction can go on, or waits for a lock or for the mutex. */
  lemma MovesOrWaits(s: State, u: nat)
    requires Inv(s) && u < |s.threads| && !s.threads[u].pc.Idle? && MemoryLeft(s)
    ensures CanMove(s, u) || (exists w: nat :: WaitsForLock(s, u, w)) || (WantsMutex(s.threads[u].pc) && s.mutex.Some?)
  {
    hide Inv, WaitsForLock;
    match s.threads[u].pc
    case Running => RunnerMoves(s, u);
    case Reading(_, _) => ReaderMoves(s, u);
    case CheckRead(_) => CheckerMoves(s, u);
    case CheckInev => CheckerMoves(s, u);
    case WantInev(_) => if s.mutex.None? { assert Enabled(s, TakeMutex(u)); }
    case Marking(_) => assert Enabled(s, Mark(u));
    case Acquiring => LockerMoves(s, u);
    case Canceling(_) => CancelingMoves(s, u);
    case Timing => TimingMoves(s, u);
    case WaitInev => if s.mutex.None? { assert Enabled(s, MutexFree(u)); }
    case CheckCommit => CommitterMoves(s, u);
    case Publishing => PublisherMoves(s, u);
  }

  ghost function Later(s: State, v: Key): set<Key> {
    set w: Key | w in s.info && Before(C4Tree, v, w)
  }

  lemma FewerLater(s: State, v: Key, w: Key)
    requires w in s.info && Before(C4Tree, v, w)
    ensures |Later(s, w)| < |Later(s, v)|
  {
    hide Before;
    Irreflexive(C4Tree, w);
    forall x: Key | x in Later(s, w) ensures x in Later(s, v) { Transitive(C4Tree, v, w, x); }
    Smaller(Later(s, w), Later(s, v), w);
  }

  lemma Smaller(a: set<Key>, b: set<Key>, x: Key)
    requires a <= b && x in b && x !in a
    ensures |a| < |b|
  {
    Fewer(a, b - {x});
  }

  lemma {:induction false} Fewer(a: set<Key>, b: set<Key>)
    requires a <= b
    ensures |a| <= |b|
  {
    if a != {} {
      var x: Key :| x in a;
      Fewer(a - {x}, b - {x});
    }
  }

  /** Following the locks from holder to holder ends at one that can go on. */
  lemma {:induction false} HolderGoesOn(s: State, u: nat, v: Key) returns (w: nat)
    requires Inv(s) && MemoryLeft(s) && u < |s.threads| && v in s.info && v in s.heads && s.heads[v] == Locked(u)
    ensures CanMove(s, w)
    decreases |Later(s, v)|
  {
    hide Inv, Before, LoopOrder, Held, CanMove, MemoryLeft;
    HolderHolds(s, u, v);
    MovesOrWaits(s, u);
    if CanMove(s, u) {
      w := u;
    } else {
      var x: nat :| WaitsForLock(s, u, x);
      OwnerExists(s, u, x);
      var next := LockWaited(s, u, x);
      WantedIsLater(s, u, v);
      FewerLater(s, v, next);
      w := HolderGoesOn(s, x, next);
    }
  }

  lemma OwnerExists(s: State, u: nat, x: nat)
    requires Inv(s) && u < |s.threads| && WaitsForLock(s, u, x)
    ensures x < |s.threads|
  {
    hide Inv, Held, LoopOrder, Newest;
    var th := s.threads[u];
    var v := if th.pc.Acquiring? then th.order[th.hi] else if th.pc.Reading? then th.pc.p else th.seen[th.k];
    Facts(s, u);
    VersionFacts(s, v);
  }

  lemma WantedIsLater(s: State, u: nat, v: Key)
    requires Inv(s) && u < |s.threads| && v in s.info && v in s.heads && s.heads[v] == Locked(u)
    requires s.threads[u].pc.Acquiring? && s.threads[u].hi < |s.threads[u].order|
    ensures Before(C4Tree, v, Wanted(s.threads[u]))
  {
    hide Inv, Before, Held;
    HolderHolds(s, u, v);
    var th := s.threads[u];
    var j: nat :| j < th.hi && j < |th.order| && th.order[j] == v;
  }

  /** In every run, as long as there is memory for new versions: if some thread is
      in a transaction, then some thread in a transaction can go on. */
  lemma SomebodyMoves(run: seq<State>, acts: seq<Action>, i: nat, t: nat) returns (u: nat)
    requires Run(run, acts) && i < |run| && t < |run[i].threads| && !run[i].threads[t].pc.Idle? && MemoryLeft(run[i])
    ensures CanMove(run[i], u)
  {
    hide Inv, CanMove, MemoryLeft;
    RunKeepsInv(run, acts, i);
    var s := run[i];
    MovesOrWaits(s, t);
    if CanMove(s, t) {
      u := t;
    } else if x: nat :| WaitsForLock(s, t, x) {
      u := WaiterGoesOn(s, t, x);
    } else {
      u := OwnerGoesOn(s);
    }
  }

  lemma WaiterGoesOn(s: State, t: nat, x: nat) returns (u: nat)
    requires Inv(s) && MemoryLeft(s) && t < |s.threads| && WaitsForLock(s, t, x)
    ensures CanMove(s, u)
  {
    hide Inv, CanMove, MemoryLeft;
    OwnerExists(s, t, x);
    var v := LockWaited(s, t, x);
    u := HolderGoesOn(s, x, v);
  }

  lemma OwnerGoesOn(s: State) returns (u: nat)
    requires Inv(s) && MemoryLeft(s) && s.mutex.Some?
    ensures CanMove(s, u)
  {
    hide Inv, CanMove, MemoryLeft, WaitsForLock;
    var t := s.mutex.value;
    OwnerBusy(s);
    OwnerHasIt(s, t);
    MovesOrWaits(s, t);
    if CanMove(s, t) {
      u := t;
    } else {
      var x: nat :| WaitsForLock(s, t, x);
      u := WaiterGoesOn(s, t, x);
    }
  }

  lemma OwnerBusy(s: State)
    requires Inv(s) && s.mutex.Some?
    ensures s.mutex.value < |s.threads| && !s.threads[s.mutex.value].pc.Idle?
  {
    assert ThreadOk(s, s.mutex.value);
  }
}
