/** What every step of the C4 commit protocol keeps (c4/et.c). */
module TimestampSafety {
  import opened Wrappers
  import opened TrieKeys
  import opened TrieOrder
  import opened Timestamps

  ghost predicate Locking(pc: Pc) {
    pc.Acquiring? || pc.Timing? || pc.CheckCommit? || pc.Canceling? || pc.Publishing?
  }

  /** The versions that a thread has locked. */
  ghost function Held(th: Thread): seq<Key> {
    if Locking(th.pc) && th.lo <= th.hi <= |th.order| then th.order[th.lo..th.hi] else []
  }

  /** Made the time odd, and did not make it even again. */
  ghost predicate Marked(th: Thread) { th.pc.CheckInev? || th.inev }

  /** In a transaction that has a start time. */
  ghost predicate Live(pc: Pc) {
    !pc.Idle? && !(pc.WantInev? && pc.anew) && !(pc.Marking? && pc.anew)
  }

  /** The newest version of its object. */
  ghost predicate Newest(s: State, v: Key)
    requires v in s.info
  {
    forall w: Key {:trigger s.info[w]} :: w in s.info && w != v && s.info[w].obj == s.info[v].obj ==> w in s.sup && s.sup[w] <= s.info[v].rev
  }

  ghost predicate HeadOk(s: State, v: Key) {
    && v in s.info && v in s.heads
    && match s.heads[v]
       case Rev(r) => r == s.info[v].rev && v !in s.sup && Newest(s, v)
       case Locked(u) => u < |s.threads| && v in Held(s.threads[u]) && Newest(s, v) && (s.threads[u].pc.Publishing? <==> v in s.sup)
       case Next(q) => v in s.sup && q in s.info && s.info[q].obj == s.info[v].obj && s.sup[v] <= s.info[q].rev
  }

  /** No commit between the time of a version and the time when it was superseded
      wrote the object. */
  ghost predicate Quiet(s: State, v: Key)
    requires v in s.info
  {
    forall c: int {:trigger s.log[c]} :: c in s.log && s.info[v].obj in s.log[c].writes ==>
      c + 1 <= s.info[v].rev || (v in s.sup && s.sup[v] <= c + 1)
  }

  ghost predicate VersionOk(s: State, v: Key) {
    v in s.info && IsKey(v) &&
    var (obj, val, rev) := (s.info[v].obj, s.info[v].val, s.info[v].rev);
    && 1 <= rev < s.time && rev % 2 == 1 && Quiet(s, v)
    && (rev == 1 ==> obj in s.first && s.first[obj] == val)
    && (rev > 1 ==> rev - 1 in s.log && obj in s.log[rev - 1].writes && s.log[rev - 1].writes[obj] == val)
    && (v in s.sup ==> rev < s.sup[v] && s.sup[v] - 1 in s.log && obj in s.log[s.sup[v] - 1].writes)
  }

  /** While a version waits to be replaced by a commit, no later commit wrote the object. */
  ghost predicate LastOk(s: State, v: Key) {
    v in s.info && v in s.heads && s.heads[v].Locked? && s.heads[v].owner < |s.threads| && s.threads[s.heads[v].owner].pc.Publishing? ==>
      forall c: int {:trigger s.log[c]} :: c in s.log && s.info[v].obj in s.log[c].writes ==> c <= s.threads[s.heads[v].owner].time
  }

  /** The version is the one of time T, and no commit under way can change that. */
  ghost predicate SafeAt(s: State, v: Key, T: int) {
    && v in s.info && s.info[v].rev < T && (v in s.sup ==> T < s.sup[v])
    && forall u: nat {:trigger s.threads[u]} :: u < |s.threads| && s.threads[u].pc.CheckCommit? && s.threads[u].time < T ==> v !in s.threads[u].writes
  }

  ghost predicate LogOk(s: State, c: int) {
    && c in s.log && 2 <= c && c % 2 == 0 && c + 2 <= s.time
    && forall v: Key {:trigger SafeAt(s, v, c)} :: v in s.log[c].seen ==> SafeAt(s, v, c)
  }

  /** The snapshot: the versions read are those of the start time; while they are
      validated, those before the cursor. */
  ghost predicate SnapshotOk(s: State, th: Thread) {
    && (forall i: nat {:trigger th.seen[i]} :: i < |th.seen| && (th.pc.CheckRead? || th.pc.CheckInev? ==> i < th.k) ==>
          SafeAt(s, th.seen[i], th.start))
    && (th.pc.CheckCommit? ==> forall i: nat {:trigger th.seen[i]} :: i < |th.seen| && i < th.k ==> SafeAt(s, th.seen[i], th.time))
  }

  ghost predicate LocksOk(s: State, t: nat, th: Thread) {
    && (Locking(th.pc) || th.pc.WaitInev? ==> LoopOrder(C4Tree, th.order, th.writes.Keys))
    && (Locking(th.pc) ==> th.lo <= th.hi <= |th.order|)
    && (th.pc.Timing? || th.pc.CheckCommit? || th.pc.Publishing? ==> th.hi == |th.order|)
    && (th.pc.Acquiring? || th.pc.Timing? || th.pc.CheckCommit? ==> th.lo == 0)
    && (Locking(th.pc) && !th.pc.Publishing? ==> forall v: Key :: v in th.saved <==> v in Held(th))
    && (Locking(th.pc) && !th.pc.Publishing? ==> forall v: Key :: v in th.saved ==> v in s.info && th.saved[v] == s.info[v].rev)
    && (forall v: Key :: v in Held(th) ==> v in s.heads && s.heads[v] == Locked(t))
  }

  ghost predicate TimesOk(s: State, t: nat, th: Thread) {
    && (Live(th.pc) ==> 0 <= th.start <= s.time && th.start % 2 == 0)
    && (forall v: Key :: v in th.seen ==> v in s.info && s.info[v].rev < th.start)
    && (forall v: Key :: v in th.writes ==> v in th.seen)
    && (!Live(th.pc) ==> th.seen == [] && th.writes == map[])
    && (Checking(th.pc) ==> th.k <= |th.seen|)
    && (th.pc.CheckCommit? ==> 2 <= th.time && th.start <= th.time && th.time + 2 <= s.time && th.time % 2 == 0 && th.time !in s.log)
    && (th.inev ==> th.pc.Running? || th.pc.Reading? || th.pc.Acquiring? || th.pc.Timing?)
    && (th.pc.Marking? || Marked(th) ==> s.mutex == Some(t))
    && (Marked(th) ==> s.time == th.start + 1)
  }

  ghost predicate PlaceOk(s: State, th: Thread) {
    match th.pc
    case Reading(p, prev) =>
      && p in s.info
      && (prev.Some? ==> var q := prev.value;
           q in s.info && q in s.heads && s.heads[q].Next? && q in s.sup && s.info[q].obj == s.info[p].obj && s.sup[q] <= s.info[p].rev)
    case CheckRead(p) => p in s.info && !th.inev
    case Publishing =>
      && th.time in s.log
      && forall j: nat {:trigger th.order[j]} :: th.lo <= j < |th.order| ==>
           var v := th.order[j];
           && v in s.info && v in th.writes && v in s.sup && s.sup[v] == th.time + 1
           && s.info[v].obj in s.log[th.time].writes && s.log[th.time].writes[s.info[v].obj] == th.writes[v]
    case _ => true
  }

  ghost predicate ThreadOk(s: State, t: nat) {
    t < |s.threads| && LocksOk(s, t, s.threads[t]) && TimesOk(s, t, s.threads[t]) && PlaceOk(s, s.threads[t]) && SnapshotOk(s, s.threads[t])
  }

  ghost predicate MutexOk(s: State) {
    && (s.mutex.Some? ==> s.mutex.value < |s.threads| && (s.threads[s.mutex.value].pc.Marking? || Marked(s.threads[s.mutex.value])))
    && (s.time % 2 == 1 ==> s.mutex.Some? && Marked(s.threads[s.mutex.value]))
    && s.time >= 2
  }

  ghost predicate DistinctOk(s: State) {
    forall t: nat, u: nat {:trigger s.threads[t], s.threads[u]} ::
      t < |s.threads| && u < |s.threads| && s.threads[t].pc.CheckCommit? && s.threads[u].pc.CheckCommit? && s.threads[t].time == s.threads[u].time ==>
      t == u
  }

  ghost predicate HeadsOk(s: State) {
    && s.heads.Keys == s.info.Keys && (forall v: Key :: v in s.sup ==> v in s.info)
    && forall v: Key {:trigger HeadOk(s, v)} :: v in s.info ==> HeadOk(s, v)
  }

  ghost predicate VersionsOk(s: State) { forall v: Key {:trigger VersionOk(s, v)} :: v in s.info ==> VersionOk(s, v) && LastOk(s, v) }
  ghost predicate LogsOk(s: State) { forall c: int {:trigger LogOk(s, c)} :: c in s.log ==> LogOk(s, c) }
  ghost predicate ThreadsOk(s: State) { forall t: nat {:trigger ThreadOk(s, t)} :: t < |s.threads| ==> ThreadOk(s, t) }

  ghost predicate Inv(s: State) {
    HeadsOk(s) && VersionsOk(s) && LogsOk(s) && ThreadsOk(s) && MutexOk(s) && DistinctOk(s)
  }

  lemma InitInv(s: State)
    requires Init(s)
    ensures Inv(s)
  {
    forall v: Key | v in s.info ensures HeadOk(s, v) && VersionOk(s, v) && LastOk(s, v) { assert InitialVersion(s, v); }
    forall t: nat | t < |s.threads| ensures ThreadOk(s, t) { assert s.threads[t] == Fresh(Idle, 0); }
  }

  // ----- steps that neither commit nor make a version

  /** Only thread t moves; of the heads, at most that of x changes. */
  ghost predicate Moves(s: State, s': State, t: nat, x: Key) {
    && t < |s.threads| == |s'.threads| && (forall u: nat {:trigger s'.threads[u]} :: u < |s.threads| && u != t ==> s'.threads[u] == s.threads[u])
    && s'.info == s.info && s'.sup == s.sup && s'.log == s.log && s'.first == s.first && s'.heads.Keys == s.heads.Keys
    && (forall v: Key {:trigger s'.heads[v]} {:trigger s.heads[v]} :: v in s.heads && v != x ==> s'.heads[v] == s.heads[v])
    && (x in s.heads ==> (s.heads[x].Next? ==> s'.heads[x].Next?) && (s.heads[x].Locked? ==> s.heads[x].owner == t))
    && ThreadMoves(s, s.threads[t], s'.threads[t], x)
    && TimeMoves(s, s', t)
  }

  /** What the thread may change of what others look at. */
  ghost predicate ThreadMoves(s: State, th: Thread, th': Thread, x: Key) {
    && (forall v: Key :: v != x ==> (v in Held(th') <==> v in Held(th)))
    && (((th'.pc.Publishing? <==> th.pc.Publishing?) && th'.time == th.time) || Held(th) == [] || (!th.pc.Publishing? && !th'.pc.Publishing?))
    && (th'.pc.CheckCommit? ==> (th.pc.CheckCommit? && th'.time == th.time && th'.writes == th.writes) || th'.time >= s.time)
  }

  ghost predicate TimeMoves(s: State, s': State, t: nat) {
    && Even(s'.time) >= Even(s.time)
    && ((s'.mutex == s.mutex && (s'.time == s.time || s.time % 2 == 0)) || s.mutex.None? || s.mutex == Some(t))
  }

  lemma SafeStays(s: State, s': State, t: nat, x: Key, v: Key, T: int)
    requires Moves(s, s', t, x) && SafeAt(s, v, T) && T <= s.time
    ensures SafeAt(s', v, T)
  {
    forall u: nat | u < |s'.threads| && s'.threads[u].pc.CheckCommit? && s'.threads[u].time < T ensures v !in s'.threads[u].writes {
      assert s.threads[u].pc.CheckCommit? ==> s.threads[u].time < T ==> v !in s.threads[u].writes;
    }
  }

  lemma HeadStays(s: State, s': State, t: nat, x: Key, v: Key)
    requires Moves(s, s', t, x) && HeadOk(s, v) && v != x
    ensures HeadOk(s', v)
  {
    assert s'.heads[v] == s.heads[v];
    assert Newest(s, v) ==> Newest(s', v);
  }

  lemma VersionStays(s: State, s': State, t: nat, x: Key, v: Key)
    requires Moves(s, s', t, x) && VersionOk(s, v)
    ensures VersionOk(s', v)
  {
    assert Quiet(s', v);
  }

  lemma LastStays(s: State, s': State, t: nat, x: Key, v: Key)
    requires Moves(s, s', t, x) && HeadOk(s, v) && LastOk(s, v) && v != x
    ensures LastOk(s', v)
  {
    if v in s'.heads && s'.heads[v].Locked? && s'.heads[v].owner < |s'.threads| && s'.threads[s'.heads[v].owner].pc.Publishing? {
      var u := s.heads[v].owner;
      assert s'.heads[v] == s.heads[v];
      assert s.threads[u].pc.Publishing? && s'.threads[u].time == s.threads[u].time;
    }
  }

  lemma LogStays(s: State, s': State, t: nat, x: Key, c: int)
    requires Moves(s, s', t, x) && LogOk(s, c)
    ensures LogOk(s', c)
  {
    forall v: Key | v in s'.log[c].seen ensures SafeAt(s', v, c) { SafeStays(s, s', t, x, v, c); }
  }

  lemma SnapshotStays(s: State, s': State, t: nat, x: Key, th: Thread)
    requires Moves(s, s', t, x) && SnapshotOk(s, th) && (th.seen != [] ==> th.start <= s.time) && (th.pc.CheckCommit? ==> th.time <= s.time)
    ensures SnapshotOk(s', th)
  {
    forall i: nat | i < |th.seen| && (th.pc.CheckRead? || th.pc.CheckInev? ==> i < th.k) ensures SafeAt(s', th.seen[i], th.start) {
      SafeStays(s, s', t, x, th.seen[i], th.start);
    }
    forall i: nat | th.pc.CheckCommit? && i < |th.seen| && i < th.k ensures SafeAt(s', th.seen[i], th.time) {
      SafeStays(s, s', t, x, th.seen[i], th.time);
    }
  }

  lemma OtherStays(s: State, s': State, t: nat, x: Key, u: nat)
    requires Moves(s, s', t, x) && u != t && ThreadOk(s, u) && s'.time >= 2 && (s.mutex.Some? ==> s.mutex.value < |s.threads|)
    ensures ThreadOk(s', u)
  {
    hide SafeAt, LoopOrder, Held, SnapshotOk;
    var th := s.threads[u];
    assert s'.threads[u] == th;
    SnapshotStays(s, s', t, x, th);
    assert LocksOk(s', u, th);
    assert TimesOk(s', u, th);
    assert PlaceOk(s', th);
  }

  lemma DistinctStays(s: State, s': State, t: nat, x: Key)
    requires Moves(s, s', t, x) && DistinctOk(s) && ThreadsOk(s)
    ensures DistinctOk(s')
  {
    forall a: nat, b: nat | a < |s'.threads| && b < |s'.threads| && s'.threads[a].pc.CheckCommit? && s'.threads[b].pc.CheckCommit?
      && s'.threads[a].time == s'.threads[b].time ensures a == b
    {
      assert ThreadOk(s, a) && ThreadOk(s, b);
      assert a != t ==> s'.threads[a] == s.threads[a];
      assert b != t ==> s'.threads[b] == s.threads[b];
    }
  }

  ghost predicate OwnerOk(s: State, t: nat, th: Thread) {
    && s.time >= 2
    && (s.mutex == Some(t) ==> th.pc.Marking? || Marked(th))
    && (s.time % 2 == 1 ==> s.mutex.Some? && (s.mutex == Some(t) ==> Marked(th)))
  }

  /** What remains to be shown of a step that changes thread t to th and, before
      that, the rest of the state to m. */
  ghost predicate Rest(s: State, m: State, t: nat, th: Thread, x: Key)
    requires t < |m.threads|
  {
    && LocksOk(m, t, th) && TimesOk(m, t, th) && PlaceOk(m, th) && SnapshotOk(s, th) && OwnerOk(m, t, th)
    && (th.seen != [] ==> th.start <= s.time) && (th.pc.CheckCommit? ==> th.time <= s.time)
    && (x in s.info ==> HeadOk(SetThread(m, t, th), x) && LastOk(SetThread(m, t, th), x))
  }

  lemma MutexStays(s: State, m: State, t: nat, th: Thread, x: Key)
    requires Inv(s) && t < |m.threads| && m.threads == s.threads && Moves(s, SetThread(m, t, th), t, x) && OwnerOk(m, t, th)
    requires m.mutex == s.mutex || m.mutex.None? || m.mutex == Some(t)
    requires m.time % 2 == 1 ==> s.time % 2 == 1 || m.mutex == Some(t)
    ensures MutexOk(SetThread(m, t, th))
  {
  }

  lemma MemoryStays(s: State, s': State, t: nat, x: Key)
    requires Inv(s) && Moves(s, s', t, x) && (x in s.info ==> HeadOk(s', x) && LastOk(s', x))
    ensures HeadsOk(s') && VersionsOk(s') && LogsOk(s')
  {
    forall v: Key | v in s'.info ensures HeadOk(s', v) && VersionOk(s', v) && LastOk(s', v) {
      assert HeadOk(s, v) && VersionOk(s, v);
      VersionStays(s, s', t, x, v);
      if v != x { HeadStays(s, s', t, x, v); LastStays(s, s', t, x, v); }
    }
    forall c: int | c in s'.log ensures LogOk(s', c) { assert LogOk(s, c); LogStays(s, s', t, x, c); }
  }

  lemma ThreadsStay(s: State, s': State, t: nat, x: Key)
    requires Inv(s) && Moves(s, s', t, x) && s'.time >= 2
    requires var th := s'.threads[t];
      && LocksOk(s', t, th) && TimesOk(s', t, th) && PlaceOk(s', th) && SnapshotOk(s, th)
      && (th.seen != [] ==> th.start <= s.time) && (th.pc.CheckCommit? ==> th.time <= s.time)
    ensures ThreadsOk(s')
  {
    forall u: nat | u < |s'.threads| ensures ThreadOk(s', u) {
      assert ThreadOk(s, u);
      if u == t { SnapshotStays(s, s', t, x, s'.threads[t]); } else { OtherStays(s, s', t, x, u); }
    }
  }

  lemma Settled(m: State, t: nat, th: Thread)
    requires t < |m.threads| && LocksOk(m, t, th) && TimesOk(m, t, th) && PlaceOk(m, th)
    ensures var s' := SetThread(m, t, th); LocksOk(s', t, th) && TimesOk(s', t, th) && PlaceOk(s', th)
  {
  }

  lemma MovesKeep(s: State, m: State, t: nat, th: Thread, x: Key)
    requires Inv(s) && t < |m.threads| && m.threads == s.threads && Moves(s, SetThread(m, t, th), t, x) && Rest(s, m, t, th, x)
    requires m.mutex == s.mutex || m.mutex.None? || m.mutex == Some(t)
    requires m.time % 2 == 1 ==> s.time % 2 == 1 || m.mutex == Some(t)
    ensures Inv(SetThread(m, t, th))
  {
    hide Moves, SnapshotOk, LocksOk, TimesOk, PlaceOk, HeadOk, LastOk, HeadsOk, VersionsOk, LogsOk, ThreadsOk, DistinctOk, MutexOk;
    var s' := SetThread(m, t, th);
    Settled(m, t, th);
    MemoryStays(s, s', t, x);
    ThreadsStay(s, s', t, x);
    DistinctStays(s, s', t, x);
    MutexStays(s, m, t, th, x);
  }

  /** The case where only the thread changes. */
  lemma LocalKeeps(s: State, t: nat, th: Thread)
    requires Inv(s) && t < |s.threads| && ThreadMoves(s, s.threads[t], th, NO_KEY) && NO_KEY !in s.info
    requires LocksOk(s, t, th) && TimesOk(s, t, th) && PlaceOk(s, th) && SnapshotOk(s, th) && OwnerOk(s, t, th)
    ensures Inv(SetThread(s, t, th))
  {
    LiveTimes(s, t, th);
    MovesKeep(s, s, t, th, NO_KEY);
  }

  lemma LiveTimes(s: State, t: nat, th: Thread)
    requires TimesOk(s, t, th)
    ensures (th.seen != [] ==> th.start <= s.time) && (th.pc.CheckCommit? ==> th.time <= s.time)
  {
  }
}
