/** Each action of the C4 commit protocol keeps the invariant. */
module TimestampSteps {
  import opened Wrappers
  import opened TrieKeys
  import opened TrieOrder
  import opened Timestamps
  import opened TimestampSafety

  lemma NotNoKey(s: State)
    requires Inv(s)
    ensures NO_KEY !in s.info
  {
    forall v: Key | v in s.info ensures v != NO_KEY { assert VersionOk(s, v); }
  }

  /** The facts about one thread. */
  lemma Facts(s: State, t: nat)
    requires Inv(s) && t < |s.threads|
    ensures ThreadOk(s, t) && MutexOk(s) && s.heads.Keys == s.info.Keys && NO_KEY !in s.info
  {
    assert ThreadOk(s, t);
    NotNoKey(s);
  }

  /** What a thread is going to commit, it has locked. */
  lemma WritesHeld(s: State, u: nat, v: Key)
    requires u < |s.threads| && LocksOk(s, u, s.threads[u]) && s.threads[u].pc.CheckCommit? && v in s.threads[u].writes
    ensures v in s.heads && s.heads[v] == Locked(u)
  {
    var th := s.threads[u];
    assert v in th.order;
    assert th.order[th.lo..th.hi] == th.order;
  }

  /** A version that nobody has locked or replaced is safe at any later time. */
  lemma UnlockedSafe(s: State, t: nat, v: Key, T: int)
    requires Inv(s) && t < |s.threads| && v in s.info && s.info[v].rev < T
    requires s.heads[v].Rev? || (s.threads[t].pc.CheckCommit? && s.heads[v] == Locked(t) && T <= s.threads[t].time)
    ensures SafeAt(s, v, T)
  {
    assert HeadOk(s, v);
    forall u: nat | u < |s.threads| && s.threads[u].pc.CheckCommit? && s.threads[u].time < T ensures v !in s.threads[u].writes {
      if v in s.threads[u].writes {
        assert ThreadOk(s, u);
        WritesHeld(s, u, v);
      }
    }
  }

  lemma SupersededBefore(s: State, v: Key)
    requires Inv(s) && v in s.info
    ensures v in s.sup ==> s.sup[v] < s.time
  {
    assert VersionOk(s, v);
    if v in s.sup { assert LogOk(s, s.sup[v] - 1); }
  }

  /** What an inevitable transaction read is not going to change. */
  lemma InevitableReads(s: State, t: nat, v: Key)
    requires Inv(s) && t < |s.threads| && s.threads[t].inev && v in s.threads[t].seen
    ensures v in s.info && v !in s.sup && !s.heads[v].Next?
  {
    assert ThreadOk(s, t);
    var i: nat :| i < |s.threads[t].seen| && s.threads[t].seen[i] == v;
    assert SafeAt(s, v, s.threads[t].start);
    assert VersionOk(s, v) && HeadOk(s, v);
    SupersededBefore(s, v);
  }

  /** An inevitable transaction meets no version that is too recent. */
  lemma InevitableRecent(s: State, t: nat, v: Key)
    requires Inv(s) && t < |s.threads| && v in s.info
    ensures s.threads[t].inev ==> s.info[v].rev <= s.threads[t].start
  {
    assert ThreadOk(s, t) && VersionOk(s, v);
  }

  lemma VersionFacts(s: State, v: Key)
    requires Inv(s) && v in s.info
    ensures HeadOk(s, v) && VersionOk(s, v) && LastOk(s, v) && s.heads.Keys == s.info.Keys
  {
    assert HeadOk(s, v) && VersionOk(s, v);
  }

  // ----- beginning, and becoming inevitable

  lemma BeginKeeps(s: State, t: nat)
    requires Inv(s) && t < |s.threads| && s.threads[t].pc.Idle?
    ensures Inv(SetThread(s, t, Fresh(Running, Even(s.time)))) && Inv(SetThread(s, t, Fresh(WantInev(true), 0)))
  {
    hide Inv;
    Facts(s, t);
    LocalKeeps(s, t, Fresh(Running, Even(s.time)));
    LocalKeeps(s, t, Fresh(WantInev(true), 0));
  }

  /** An abort without locks. */
  lemma AbortKeeps(s: State, t: nat)
    requires Inv(s) && t < |s.threads|
    requires var th := s.threads[t]; !th.inev && (th.pc.Running? || th.pc.CheckRead? || (th.pc.Canceling? && Held(th) == []) || (th.pc.Publishing? && Held(th) == []))
    ensures Inv(SetThread(s, t, Fresh(Idle, 0)))
  {
    hide Inv;
    Facts(s, t);
    LocalKeeps(s, t, Fresh(Idle, 0));
  }

  lemma BecomeKeeps(s: State, t: nat)
    requires Inv(s) && t < |s.threads| && s.threads[t].pc.Running? && !s.threads[t].inev
    ensures Inv(SetThread(s, t, s.threads[t].(pc := WantInev(false))))
  {
    hide Inv;
    Facts(s, t);
    LocalKeeps(s, t, s.threads[t].(pc := WantInev(false)));
  }

  lemma TakeMutexKeeps(s: State, t: nat)
    requires Inv(s) && t < |s.threads| && s.threads[t].pc.WantInev? && s.mutex.None?
    ensures Inv(SetThread(s.(mutex := Some(t)), t, s.threads[t].(pc := Marking(s.threads[t].pc.anew))))
  {
    hide Inv, SafeAt, LoopOrder, Newest;
    Facts(s, t);
    MovesKeep(s, s.(mutex := Some(t)), t, s.threads[t].(pc := Marking(s.threads[t].pc.anew)), NO_KEY);
  }

  lemma MarkKeeps(s: State, t: nat)
    requires Inv(s) && t < |s.threads| && s.threads[t].pc.Marking? && (s.threads[t].pc.anew || s.threads[t].start == s.time)
    ensures Inv(SetThread(s.(time := s.time + 1), t, s.threads[t].(pc := Running, inev := true, start := s.time)))
  {
    hide Inv, SafeAt, LoopOrder, Newest;
    Facts(s, t);
    assert s.time % 2 == 0;
    MovesKeep(s, s.(time := s.time + 1), t, s.threads[t].(pc := Running, inev := true, start := s.time), NO_KEY);
  }

  lemma MarkAndCheckKeeps(s: State, t: nat)
    requires Inv(s) && t < |s.threads| && s.threads[t].pc.Marking? && !s.threads[t].pc.anew
    ensures Inv(SetThread(s.(time := s.time + 1), t, s.threads[t].(pc := CheckInev, start := s.time, k := 0)))
  {
    hide Inv, SafeAt, LoopOrder;
    Facts(s, t);
    assert s.time % 2 == 0;
    MovesKeep(s, s.(time := s.time + 1), t, s.threads[t].(pc := CheckInev, start := s.time, k := 0), NO_KEY);
  }

  // ----- reading and writing

  lemma StartReadKeeps(s: State, t: nat, p: Key)
    requires Inv(s) && t < |s.threads| && s.threads[t].pc.Running? && p in s.info
    ensures Inv(SetThread(s, t, s.threads[t].(pc := Reading(p, None))))
  {
    hide Inv;
    Facts(s, t);
    LocalKeeps(s, t, s.threads[t].(pc := Reading(p, None)));
  }

  lemma OwnCopyKeeps(s: State, t: nat)
    requires Inv(s) && t < |s.threads| && s.threads[t].pc.Reading?
    ensures Inv(SetThread(s, t, s.threads[t].(pc := Running)))
  {
    hide Inv;
    Facts(s, t);
    LocalKeeps(s, t, s.threads[t].(pc := Running));
  }

  lemma HopKeeps(s: State, t: nat)
    requires Inv(s) && t < |s.threads| && s.threads[t].pc.Reading? && s.threads[t].pc.p in s.heads && s.heads[s.threads[t].pc.p].Next?
    requires s.threads[t].pc.prev.None?
    ensures Inv(SetThread(s, t, s.threads[t].(pc := Reading(s.heads[s.threads[t].pc.p].version, Some(s.threads[t].pc.p)))))
  {
    hide Inv;
    Facts(s, t);
    VersionFacts(s, s.threads[t].pc.p);
    LocalKeeps(s, t, s.threads[t].(pc := Reading(s.heads[s.threads[t].pc.p].version, Some(s.threads[t].pc.p))));
  }

  lemma ShortcutHead(s: State, t: nat)
    requires Inv(s) && t < |s.threads| && s.threads[t].pc.Reading? && s.threads[t].pc.p in s.heads && s.heads[s.threads[t].pc.p].Next?
    requires s.threads[t].pc.prev.Some?
    ensures var th := s.threads[t];
      var q, prev := s.heads[th.pc.p].version, th.pc.prev.value;
      var s' := SetThread(s.(heads := s.heads[prev := Next(q)]), t, th.(pc := Reading(q, None)));
      && q in s.info && prev in s.heads && s.heads[prev].Next? && HeadOk(s', prev) && LastOk(s', prev)
  {
    hide Inv, Newest, Quiet, SafeAt, LoopOrder;
    var th := s.threads[t];
    Facts(s, t);
    VersionFacts(s, th.pc.p);
    VersionFacts(s, th.pc.prev.value);
  }

  lemma StillReading(s: State, t: nat, th: Thread, q: Key, heads: map<Key, Head>)
    requires t < |s.threads| && th == s.threads[t] && ThreadOk(s, t) && MutexOk(s) && th.pc.Reading? && q in s.info
    ensures var m, th' := s.(heads := heads), th.(pc := Reading(q, None));
      && LocksOk(m, t, th') && TimesOk(m, t, th') && PlaceOk(m, th') && SnapshotOk(s, th') && OwnerOk(m, t, th')
      && (th.seen != [] ==> th.start <= s.time)
      && forall x: Key :: ThreadMoves(s, th, th', x)
  {
    hide SafeAt, LoopOrder;
  }

  lemma ShortcutKeeps(s: State, t: nat)
    requires Inv(s) && t < |s.threads| && s.threads[t].pc.Reading? && s.threads[t].pc.p in s.heads && s.heads[s.threads[t].pc.p].Next?
    requires s.threads[t].pc.prev.Some?
    ensures var th := s.threads[t];
      var q := s.heads[th.pc.p].version;
      Inv(SetThread(s.(heads := s.heads[th.pc.prev.value := Next(q)]), t, th.(pc := Reading(q, None))))
  {
    hide Inv, HeadOk, LastOk, LocksOk, TimesOk, PlaceOk, SnapshotOk, OwnerOk, ThreadMoves;
    var th := s.threads[t];
    var q := s.heads[th.pc.p].version;
    Facts(s, t);
    ShortcutHead(s, t);
    StillReading(s, t, th, q, s.heads[th.pc.prev.value := Next(q)]);
    MovesKeep(s, s.(heads := s.heads[th.pc.prev.value := Next(q)]), t, th.(pc := Reading(q, None)), th.pc.prev.value);
  }

  lemma TakeReadKeeps(s: State, t: nat)
    requires Inv(s) && t < |s.threads| && s.threads[t].pc.Reading?
    requires var th := s.threads[t]; th.pc.p in s.heads && s.heads[th.pc.p].Rev? && s.heads[th.pc.p].time <= th.start
    ensures var th := s.threads[t]; Inv(SetThread(s, t, th.(pc := Running, seen := th.seen + [th.pc.p])))
  {
    hide Inv, SafeAt, LoopOrder, Newest;
    Facts(s, t);
    var th := s.threads[t];
    VersionFacts(s, th.pc.p);
    UnlockedSafe(s, t, th.pc.p, th.start);
    LocalKeeps(s, t, th.(pc := Running, seen := th.seen + [th.pc.p]));
  }

  lemma TooRecentKeeps(s: State, t: nat)
    requires Inv(s) && t < |s.threads| && s.threads[t].pc.Reading?
    requires var th := s.threads[t]; th.pc.p in s.heads && s.heads[th.pc.p].Rev? && s.heads[th.pc.p].time > th.start
    ensures var th := s.threads[t]; Inv(SetThread(s, t, th.(pc := CheckRead(th.pc.p), start := Even(s.time), k := 0)))
  {
    hide Inv, SafeAt, LoopOrder, Newest;
    Facts(s, t);
    var th := s.threads[t];
    VersionFacts(s, th.pc.p);
    InevitableRecent(s, t, th.pc.p);
    LocalKeeps(s, t, th.(pc := CheckRead(th.pc.p), start := Even(s.time), k := 0));
  }

  lemma WriteKeeps(s: State, t: nat, p: Key, val: int)
    requires Inv(s) && t < |s.threads| && s.threads[t].pc.Running? && p in s.threads[t].seen
    ensures var th := s.threads[t]; Inv(SetThread(s, t, th.(writes := th.writes[p := val])))
  {
    hide Inv;
    Facts(s, t);
    var th := s.threads[t];
    LocalKeeps(s, t, th.(writes := th.writes[p := val]));
  }

  // ----- validating

  lemma SeenFacts(s: State, t: nat, k: nat)
    requires ThreadOk(s, t) && k < |s.threads[t].seen|
    ensures var th := s.threads[t];
      var v := th.seen[k];
      v in s.info && s.info[v].rev < th.start && (th.pc.CheckCommit? ==> s.info[v].rev < th.time)
  {
    hide LocksOk, PlaceOk, SnapshotOk;
    assert s.threads[t].seen[k] in s.threads[t].seen;
  }

  lemma CheckOneKeeps(s: State, t: nat)
    requires Inv(s) && t < |s.threads| && Checking(s.threads[t].pc) && s.threads[t].k < |s.threads[t].seen|
    requires var v := s.threads[t].seen[s.threads[t].k]; v in s.heads && Passes(s, t, v)
    ensures var th := s.threads[t]; Inv(SetThread(s, t, th.(k := th.k + 1)))
  {
    hide Inv, SafeAt, LoopOrder;
    Facts(s, t);
    var th := s.threads[t];
    SeenFacts(s, t, th.k);
    UnlockedSafe(s, t, th.seen[th.k], if th.pc.CheckCommit? then th.time else th.start);
    LocalKeeps(s, t, th.(k := th.k + 1));
  }

  lemma ReadCheckedKeeps(s: State, t: nat)
    requires Inv(s) && t < |s.threads| && s.threads[t].pc.CheckRead? && s.threads[t].k == |s.threads[t].seen|
    ensures var th := s.threads[t]; Inv(SetThread(s, t, th.(pc := Reading(th.pc.p, None))))
  {
    hide Inv;
    Facts(s, t);
    var th := s.threads[t];
    LocalKeeps(s, t, th.(pc := Reading(th.pc.p, None)));
  }

  lemma InevCheckedKeeps(s: State, t: nat)
    requires Inv(s) && t < |s.threads| && s.threads[t].pc.CheckInev? && s.threads[t].k == |s.threads[t].seen|
    ensures var th := s.threads[t]; Inv(SetThread(s, t, th.(pc := Running, inev := true)))
  {
    hide Inv;
    Facts(s, t);
    var th := s.threads[t];
    LocalKeeps(s, t, th.(pc := Running, inev := true));
  }

  /** BecomeInevitable gives up: the time is even again, and as before. */
  lemma RevertKeeps(s: State, t: nat)
    requires Inv(s) && t < |s.threads| && s.threads[t].pc.CheckInev?
    ensures Inv(SetThread(s, t, Fresh(Idle, 0)).(time := s.threads[t].start, mutex := None))
  {
    hide Inv;
    Facts(s, t);
    var m := s.(time := s.threads[t].start, mutex := None);
    MovesKeep(s, m, t, Fresh(Idle, 0), NO_KEY);
    assert SetThread(m, t, Fresh(Idle, 0)) == SetThread(s, t, Fresh(Idle, 0)).(time := s.threads[t].start, mutex := None);
  }

  // ----- locking

  lemma StartCommitKeeps(s: State, t: nat, order: seq<Key>)
    requires Inv(s) && t < |s.threads| && LoopOrder(C4Tree, order, s.threads[t].writes.Keys)
    requires s.threads[t].pc.Running? || s.threads[t].pc.WaitInev?
    ensures Inv(SetThread(s, t, s.threads[t].(pc := Acquiring, order := order, saved := map[], lo := 0, hi := 0)))
  {
    hide Inv;
    Facts(s, t);
    LocalKeeps(s, t, s.threads[t].(pc := Acquiring, order := order, saved := map[], lo := 0, hi := 0));
  }

  lemma AllLockedKeeps(s: State, t: nat)
    requires Inv(s) && t < |s.threads| && s.threads[t].pc.Acquiring? && s.threads[t].hi == |s.threads[t].order|
    ensures Inv(SetThread(s, t, s.threads[t].(pc := Timing)))
  {
    hide Inv;
    Facts(s, t);
    LocalKeeps(s, t, s.threads[t].(pc := Timing));
  }

  /** Giving up with locks held: only when not inevitable. */
  lemma CancelKeeps(s: State, t: nat, retry: bool)
    requires Inv(s) && t < |s.threads| && !s.threads[t].inev
    requires s.threads[t].pc.Acquiring? || s.threads[t].pc.Timing? || s.threads[t].pc.CheckCommit?
    ensures Inv(SetThread(s, t, s.threads[t].(pc := Canceling(retry))))
  {
    hide Inv;
    Facts(s, t);
    LocalKeeps(s, t, s.threads[t].(pc := Canceling(retry)));
  }

  /** An inevitable transaction never finds that what it wants to lock was replaced. */
  lemma LockFailsOnce(s: State, t: nat)
    requires Inv(s) && Enabled(s, LockFails(t))
    ensures !s.threads[t].inev
  {
    Facts(s, t);
    var th := s.threads[t];
    assert th.order[th.hi] in th.order;
    if th.inev { InevitableReads(s, t, th.order[th.hi]); }
  }

  lemma Different(order: seq<Key>, keys: set<Key>, i: nat, j: nat)
    requires LoopOrder(C4Tree, order, keys) && i < |order| && j < |order|
    ensures order[i] == order[j] ==> i == j
  {
    Irreflexive(C4Tree, order[i]);
  }

  function LockOne(th: Thread, time: int): Thread
    requires th.hi < |th.order|
  {
    th.(saved := th.saved[th.order[th.hi] := time], hi := th.hi + 1)
  }

  lemma HeldGrows(th: Thread, time: int)
    requires th.pc.Acquiring? && th.hi < |th.order|
    ensures th.lo <= th.hi ==> forall v: Key :: v in Held(LockOne(th, time)) <==> v in Held(th) || v == th.order[th.hi]
  {
    assert th.lo <= th.hi ==> Held(LockOne(th, time)) == Held(th) + [th.order[th.hi]];
  }

  lemma LockMoves(s: State, t: nat)
    requires Enabled(s, Lock(t)) && s.heads.Keys == s.info.Keys && s.threads[t].lo <= s.threads[t].hi
    ensures var th := s.threads[t];
      var v := th.order[th.hi];
      Moves(s, SetThread(s.(heads := s.heads[v := Locked(t)]), t, LockOne(th, s.heads[v].time)), t, v)
  {
    hide Held, LoopOrder;
    HeldGrows(s.threads[t], s.heads[s.threads[t].order[s.threads[t].hi]].time);
  }

  lemma LockRest(s: State, t: nat)
    requires Inv(s) && Enabled(s, Lock(t))
    ensures var th := s.threads[t];
      var v := th.order[th.hi];
      Rest(s, s.(heads := s.heads[v := Locked(t)]), t, LockOne(th, s.heads[v].time), v)
  {
    hide Inv, HeadOk, LastOk, Held, LoopOrder, LocksOk, SafeAt;
    Facts(s, t);
    LockedHead(s, t);
    LockedLocks(s, t);
  }

  lemma LockBounds(s: State, t: nat)
    requires Inv(s) && Enabled(s, Lock(t))
    ensures s.threads[t].lo <= s.threads[t].hi && s.heads.Keys == s.info.Keys
  {
    hide Inv, Held, LoopOrder, TimesOk, PlaceOk, SnapshotOk;
    Facts(s, t);
  }

  lemma LockKeeps(s: State, t: nat)
    requires Inv(s) && Enabled(s, Lock(t))
    ensures var th := s.threads[t];
      var v := th.order[th.hi];
      Inv(SetThread(s.(heads := s.heads[v := Locked(t)]), t, LockOne(th, s.heads[v].time)))
  {
    hide Inv, Moves, Rest;
    var th := s.threads[t];
    var v := th.order[th.hi];
    LockBounds(s, t);
    LockMoves(s, t);
    LockRest(s, t);
    MovesKeep(s, s.(heads := s.heads[v := Locked(t)]), t, LockOne(th, s.heads[v].time), v);
  }

  lemma LockedLocks(s: State, t: nat)
    requires Enabled(s, Lock(t)) && ThreadOk(s, t) && HeadOk(s, s.threads[t].order[s.threads[t].hi])
    ensures var th := s.threads[t];
      var v := th.order[th.hi];
      LocksOk(s.(heads := s.heads[v := Locked(t)]), t, LockOne(th, s.heads[v].time))
  {
    hide Held, LoopOrder, SnapshotOk, TimesOk, PlaceOk;
    var th := s.threads[t];
    HeldGrows(th, s.heads[th.order[th.hi]].time);
  }

  lemma LockedHead(s: State, t: nat)
    requires Inv(s) && Enabled(s, Lock(t))
    ensures var th := s.threads[t];
      var v := th.order[th.hi];
      var s' := SetThread(s.(heads := s.heads[v := Locked(t)]), t, LockOne(th, s.heads[v].time));
      HeadOk(s, v) && HeadOk(s', v) && LastOk(s', v)
  {
    hide Inv, Held, LoopOrder, Newest, SnapshotOk, TimesOk, PlaceOk;
    var th := s.threads[t];
    var v := th.order[th.hi];
    Facts(s, t);
    VersionFacts(s, v);
    HeldGrows(th, s.heads[v].time);
    SameNewest(s, SetThread(s.(heads := s.heads[v := Locked(t)]), t, LockOne(th, s.heads[v].time)), v);
  }

  lemma SameNewest(s: State, s': State, v: Key)
    requires v in s.info && Newest(s, v) && s'.info == s.info && s'.sup == s.sup
    ensures Newest(s', v)
  {
  }

  function CancelFirst(th: Thread): Thread
    requires th.lo < |th.order|
  {
    th.(saved := th.saved - {th.order[th.lo]}, lo := th.lo + 1)
  }

  lemma HeldShrinks(th: Thread)
    requires th.pc.Canceling? && th.lo < th.hi <= |th.order| && th.order[th.lo] !in th.order[th.lo + 1..th.hi]
    ensures forall v: Key :: v in Held(CancelFirst(th)) <==> v in Held(th) && v != th.order[th.lo]
    ensures th.order[th.lo] in Held(th)
  {
    assert Held(th) == [th.order[th.lo]] + Held(CancelFirst(th));
  }

  lemma CancelMoves(s: State, t: nat)
    requires Inv(s) && Enabled(s, CancelOne(t))
    ensures var th := s.threads[t];
      var v := th.order[th.lo];
      Moves(s, SetThread(s.(heads := s.heads[v := Rev(th.saved[v])]), t, CancelFirst(th)), t, v)
  {
    hide Inv, HeadOk, LastOk, Held, LoopOrder, LocksOk;
    Facts(s, t);
    FirstHeld(s, t);
    HeldShrinks(s.threads[t]);
    CanceledHead(s, t);
  }

  lemma CancelRest(s: State, t: nat)
    requires Inv(s) && Enabled(s, CancelOne(t))
    ensures var th := s.threads[t];
      var v := th.order[th.lo];
      Rest(s, s.(heads := s.heads[v := Rev(th.saved[v])]), t, CancelFirst(th), v)
  {
    hide Inv, HeadOk, LastOk, Held, LoopOrder, LocksOk, SafeAt;
    Facts(s, t);
    CanceledHead(s, t);
    CanceledLocks(s, t);
  }

  lemma CancelOneKeeps(s: State, t: nat)
    requires Inv(s) && Enabled(s, CancelOne(t))
    ensures var th := s.threads[t];
      var v := th.order[th.lo];
      Inv(SetThread(s.(heads := s.heads[v := Rev(th.saved[v])]), t, CancelFirst(th)))
  {
    hide Inv, Moves, Rest;
    var th := s.threads[t];
    var v := th.order[th.lo];
    CancelMoves(s, t);
    CancelRest(s, t);
    MovesKeep(s, s.(heads := s.heads[v := Rev(th.saved[v])]), t, CancelFirst(th), v);
  }

  lemma CanceledLocks(s: State, t: nat)
    requires Enabled(s, CancelOne(t)) && ThreadOk(s, t)
    ensures var th := s.threads[t];
      var v := th.order[th.lo];
      LocksOk(s.(heads := s.heads[v := Rev(th.saved[v])]), t, CancelFirst(th))
  {
    hide Held, LoopOrder, SnapshotOk, TimesOk, PlaceOk;
    FirstHeld(s, t);
    HeldShrinks(s.threads[t]);
  }

  lemma CanceledHead(s: State, t: nat)
    requires Inv(s) && Enabled(s, CancelOne(t))
    ensures var th := s.threads[t];
      var v := th.order[th.lo];
      var s' := SetThread(s.(heads := s.heads[v := Rev(th.saved[v])]), t, CancelFirst(th));
      v in s.heads && HeadOk(s, v) && s.heads[v] == Locked(t) && HeadOk(s', v) && LastOk(s', v)
  {
    hide Inv, Held, LoopOrder, SnapshotOk, TimesOk, PlaceOk;
    var th := s.threads[t];
    var v := th.order[th.lo];
    Facts(s, t);
    assert v in Held(th);
    VersionFacts(s, v);
  }

  lemma FirstHeld(s: State, t: nat)
    requires Enabled(s, CancelOne(t)) && LocksOk(s, t, s.threads[t])
    ensures var th := s.threads[t]; th.lo < th.hi <= |th.order| && th.order[th.lo] !in th.order[th.lo + 1..th.hi]
  {
    hide LoopOrder, Held;
    var th := s.threads[t];
    assert th.order[th.lo] in Held(th);
    FirstIs(th);
  }

  lemma FirstIs(th: Thread)
    requires th.pc.Canceling? && LoopOrder(C4Tree, th.order, th.writes.Keys) && th.lo < |th.order| && th.order[th.lo] in Held(th)
    ensures th.lo < th.hi <= |th.order| && th.order[th.lo] !in th.order[th.lo + 1..th.hi]
  {
    hide LoopOrder;
    forall i: nat | th.lo + 1 <= i < |th.order| ensures th.order[i] != th.order[th.lo] { Different(th.order, th.writes.Keys, th.lo, i); }
  }

  /** CancelLocks stops where nothing is locked any more. */
  lemma NoneHeld(s: State, t: nat)
    requires Enabled(s, CancelDone(t)) && LocksOk(s, t, s.threads[t])
    ensures Held(s.threads[t]) == []
  {
    HeldFirst(s.threads[t]);
  }

  lemma HeldFirst(th: Thread)
    ensures Held(th) != [] ==> th.lo < |th.order| && th.order[th.lo] in Held(th)
  {
    assert Held(th) != [] ==> Held(th)[0] == th.order[th.lo];
  }

  lemma RetryKeeps(s: State, t: nat)
    requires Inv(s) && t < |s.threads| && s.threads[t].pc.Canceling? && Held(s.threads[t]) == []
    ensures Inv(SetThread(s, t, s.threads[t].(pc := WaitInev)))
  {
    hide Inv;
    Facts(s, t);
    LocalKeeps(s, t, s.threads[t].(pc := WaitInev));
  }

  lemma AdvanceThread(s: State, t: nat)
    requires ThreadOk(s, t) && MutexOk(s) && s.threads[t].pc.Timing? && !s.threads[t].inev && s.time % 2 == 0 && s.time !in s.log
    ensures var m, th := s.(time := s.time + 2), s.threads[t].(pc := CheckCommit, time := s.time, k := 0);
      LocksOk(m, t, th) && TimesOk(m, t, th) && PlaceOk(m, th) && SnapshotOk(s, th) && OwnerOk(m, t, th) && (th.seen != [] ==> th.start <= s.time)
  {
    hide SafeAt, LoopOrder;
  }

  /** The time advances, and validation starts. */
  lemma AdvanceKeeps(s: State, t: nat)
    requires Inv(s) && t < |s.threads| && s.threads[t].pc.Timing? && !s.threads[t].inev && s.time % 2 == 0 && s.time != s.threads[t].start
    ensures Inv(SetThread(s.(time := s.time + 2), t, s.threads[t].(pc := CheckCommit, time := s.time, k := 0)))
  {
    hide Inv, LocksOk, TimesOk, PlaceOk, SnapshotOk, OwnerOk;
    Facts(s, t);
    NoSuchCommit(s, s.time);
    AdvanceThread(s, t);
    MovesKeep(s, s.(time := s.time + 2), t, s.threads[t].(pc := CheckCommit, time := s.time, k := 0), NO_KEY);
  }

  lemma NoSuchCommit(s: State, c: int)
    requires Inv(s) && c >= s.time - 1
    ensures c !in s.log
  {
    forall d: int | d in s.log ensures d + 2 <= s.time { assert LogOk(s, d); }
  }
}
