/** The moment of commit, and publishing: the two steps of the C4 protocol that
    other transactions notice (c4/et.c). */
module TimestampCommit {
  import opened Wrappers
  import opened TrieKeys
  import opened TrieOrder
  import opened Timestamps
  import opened TimestampSafety
  import opened TimestampSteps

  /** An object has one newest version. */
  lemma OneNewest(s: State, v: Key, w: Key)
    requires v in s.info && w in s.info && s.info[v].obj == s.info[w].obj && Newest(s, v) && Newest(s, w) && VersionOk(s, v) && VersionOk(s, w)
    ensures v == w
  {
  }

  // ----- publishing

  /** What PublishOne makes of the state. */
  function Published(s: State, t: nat, copy: Key): State
    requires t < |s.threads| && s.threads[t].lo < |s.threads[t].order|
    requires var v := s.threads[t].order[s.threads[t].lo]; v in s.info && v in s.threads[t].writes
  {
    var th := s.threads[t];
    var v := th.order[th.lo];
    SetThread(s.(info := s.info[copy := Version(s.info[v].obj, th.writes[v], th.time + 1)],
                 heads := s.heads[copy := Rev(th.time + 1)][v := Next(copy)]), t, th.(lo := th.lo + 1))
  }

  lemma PublishFacts(s: State, t: nat, copy: Key)
    requires Inv(s) && Enabled(s, PublishOne(t, copy))
    ensures var th := s.threads[t];
      var v := th.order[th.lo];
      && ThreadOk(s, t) && th.lo < th.hi == |th.order| && v != copy && v in Held(th) && v in s.heads && s.heads[v] == Locked(t)
      && HeadOk(s, v) && VersionOk(s, v) && LastOk(s, v) && v in s.sup && s.sup[v] == th.time + 1 && th.time in s.log && LogOk(s, th.time)
      && s.info[v].obj in s.log[th.time].writes && s.log[th.time].writes[s.info[v].obj] == th.writes[v]
  {
    hide Inv, LoopOrder, SafeAt, Newest, Quiet;
    var th := s.threads[t];
    var v := th.order[th.lo];
    Facts(s, t);
    assert th.order[th.lo] == v;
    assert Held(th)[0] == v;
    VersionFacts(s, v);
    LogFacts(s, th.time);
  }

  lemma LogFacts(s: State, c: int)
    requires Inv(s) && c in s.log
    ensures LogOk(s, c)
  {
  }

  lemma CopyNewest(s: State, t: nat, copy: Key)
    requires Inv(s) && Enabled(s, PublishOne(t, copy))
    ensures Newest(Published(s, t, copy), copy)
  {
    hide Inv, ThreadOk, LastOk, LogOk, VersionOk, Quiet, LoopOrder, Held;
    PublishFacts(s, t, copy);
    var s', v := Published(s, t, copy), s.threads[t].order[s.threads[t].lo];
    forall w: Key {:trigger s'.info[w]} | w in s'.info && w != copy && s'.info[w].obj == s.info[v].obj
      ensures w in s'.sup && s'.sup[w] <= s.threads[t].time + 1
    {
      assert s.info[w] == s'.info[w];
      SupersedesLater(s, v);
    }
  }

  lemma SupersedesLater(s: State, v: Key)
    requires Inv(s) && v in s.info
    ensures v in s.sup ==> s.info[v].rev < s.sup[v]
  {
    assert VersionOk(s, v);
  }

  lemma CopyVersion(s: State, t: nat, copy: Key)
    requires Inv(s) && Enabled(s, PublishOne(t, copy))
    ensures VersionOk(Published(s, t, copy), copy)
  {
    hide Inv, ThreadOk, HeadOk, VersionOk, Quiet, LoopOrder, Held, SafeAt, Newest;
    PublishFacts(s, t, copy);
    CopyQuiet(s, t, copy);
    NotSuperseded(s, copy);
    VersionOkDef(Published(s, t, copy), copy);
  }

  lemma VersionOkDef(s: State, v: Key)
    requires v in s.info && IsKey(v) && 1 < s.info[v].rev < s.time && s.info[v].rev % 2 == 1 && Quiet(s, v) && v !in s.sup
    requires var (obj, val, rev) := (s.info[v].obj, s.info[v].val, s.info[v].rev);
      rev - 1 in s.log && obj in s.log[rev - 1].writes && s.log[rev - 1].writes[obj] == val
    ensures VersionOk(s, v)
  {
  }

  lemma NotSuperseded(s: State, v: Key)
    requires Inv(s) && v !in s.info
    ensures v !in s.sup
  {
  }

  lemma CopyQuiet(s: State, t: nat, copy: Key)
    requires Inv(s) && Enabled(s, PublishOne(t, copy))
    ensures Quiet(Published(s, t, copy), copy)
  {
    hide Inv, ThreadOk, HeadOk, VersionOk, LoopOrder, Held, SafeAt, Newest;
    PublishFacts(s, t, copy);
    var s' := Published(s, t, copy);
    forall c: int {:trigger s'.log[c]} | c in s'.log && s'.info[copy].obj in s'.log[c].writes ensures c + 1 <= s'.info[copy].rev {
      assert s.log[c] == s'.log[c];
    }
  }

  lemma CopyOk(s: State, t: nat, copy: Key)
    requires Inv(s) && Enabled(s, PublishOne(t, copy))
    ensures var s' := Published(s, t, copy); HeadOk(s', copy) && VersionOk(s', copy) && LastOk(s', copy)
  {
    hide Inv, VersionOk, LoopOrder, Held, Newest;
    NotSuperseded(s, copy);
    CopyNewest(s, t, copy);
    CopyVersion(s, t, copy);
    PublishFacts(s, t, copy);
  }

  lemma NewestLocked(s: State, v: Key)
    requires v in s.info && HeadOk(s, v) && s.heads[v].Locked?
    ensures Newest(s, v)
  {
  }

  /** Whatever else is the newest version of its object is one of another object. */
  lemma OtherNewest(s: State, t: nat, copy: Key, w: Key)
    requires Inv(s) && Enabled(s, PublishOne(t, copy)) && w in s.info && w != s.threads[t].order[s.threads[t].lo] && Newest(s, w)
    ensures Newest(Published(s, t, copy), w)
  {
    hide Inv, ThreadOk, HeadOk, LastOk, LogOk, VersionOk, Held, LoopOrder;
    PublishFacts(s, t, copy);
    var s' := Published(s, t, copy);
    var v := s.threads[t].order[s.threads[t].lo];
    NewestLocked(s, v);
    VersionFacts(s, w);
    OneNewestIf(s, v, w);
    forall x: Key {:trigger s'.info[x]} | x in s'.info && x != w && s'.info[x].obj == s'.info[w].obj
      ensures x in s'.sup && s'.sup[x] <= s'.info[w].rev
    {
      assert x in s.info && s.info[x] == s'.info[x];
    }
  }

  /** Publishing releases one lock. */
  lemma HeldDrops(th: Thread)
    requires th.pc.Publishing? && LoopOrder(C4Tree, th.order, th.writes.Keys) && th.lo < th.hi <= |th.order|
    ensures forall w: Key :: w in Held(th.(lo := th.lo + 1)) <==> w in Held(th) && w != th.order[th.lo]
  {
    hide LoopOrder;
    forall j: nat | th.lo + 1 <= j < |th.order| ensures th.order[j] != th.order[th.lo] { Different(th.order, th.writes.Keys, th.lo, j); }
    assert Held(th) == [th.order[th.lo]] + Held(th.(lo := th.lo + 1));
  }

  lemma HeldPublished(s: State, t: nat, copy: Key)
    requires Inv(s) && Enabled(s, PublishOne(t, copy))
    ensures var th := s.threads[t];
      forall w: Key :: w in Held(th.(lo := th.lo + 1)) <==> w in Held(th) && w != th.order[th.lo]
  {
    hide Inv, Held, LoopOrder, HeadOk, VersionOk, LastOk, LogOk, SnapshotOk;
    PublishFacts(s, t, copy);
    HeldDrops(s.threads[t]);
  }

  lemma OtherHeadPublished(s: State, t: nat, copy: Key, w: Key)
    requires Inv(s) && Enabled(s, PublishOne(t, copy)) && w in s.info
    ensures HeadOk(Published(s, t, copy), w)
  {
    hide Inv, ThreadOk, LastOk, LogOk, VersionOk, LoopOrder, Held, Newest;
    PublishFacts(s, t, copy);
    HeldPublished(s, t, copy);
    VersionFacts(s, w);
    if w != s.threads[t].order[s.threads[t].lo] && Newest(s, w) { OtherNewest(s, t, copy, w); }
  }

  lemma OtherVersionPublished(s: State, t: nat, copy: Key, w: Key)
    requires Inv(s) && Enabled(s, PublishOne(t, copy)) && w in s.info
    ensures VersionOk(Published(s, t, copy), w) && LastOk(Published(s, t, copy), w)
  {
    hide Inv, ThreadOk, LogOk, LoopOrder, Held, Newest;
    PublishFacts(s, t, copy);
    VersionFacts(s, w);
    assert Quiet(Published(s, t, copy), w);
  }

  lemma PublishedSnapshots(s: State, t: nat, copy: Key, th: Thread)
    requires Enabled(s, PublishOne(t, copy)) && SnapshotOk(s, th)
    ensures SnapshotOk(Published(s, t, copy), th)
  {
    forall v: Key, T: int | SafeAt(s, v, T) ensures SafeAt(Published(s, t, copy), v, T) { PublishedSafe(s, t, copy, v, T); }
  }

  lemma PublishedSafe(s: State, t: nat, copy: Key, v: Key, T: int)
    requires Enabled(s, PublishOne(t, copy)) && SafeAt(s, v, T)
    ensures SafeAt(Published(s, t, copy), v, T)
  {
    var s' := Published(s, t, copy);
    forall u: nat | u < |s'.threads| && s'.threads[u].pc.CheckCommit? && s'.threads[u].time < T ensures v !in s'.threads[u].writes {
      assert s'.threads[u] == s.threads[u];
    }
  }

  lemma OtherPlacePublished(s: State, t: nat, copy: Key, th: Thread)
    requires Enabled(s, PublishOne(t, copy)) && PlaceOk(s, th) && s.threads[t].order[s.threads[t].lo] in s.heads
    requires s.heads[s.threads[t].order[s.threads[t].lo]].Locked? && copy !in s.heads
    ensures PlaceOk(Published(s, t, copy), th)
  {
  }

  lemma OtherThreadPublished(s: State, t: nat, copy: Key, u: nat)
    requires Inv(s) && Enabled(s, PublishOne(t, copy)) && u != t && u < |s.threads|
    ensures ThreadOk(Published(s, t, copy), u)
  {
    hide Inv, LoopOrder, SafeAt, HeadOk, LastOk, VersionOk, LogOk, Newest, SnapshotOk, PlaceOk, Held;
    PublishFacts(s, t, copy);
    Facts(s, u);
    PublishedSnapshots(s, t, copy, s.threads[u]);
    OtherPlacePublished(s, t, copy, s.threads[u]);
  }

  lemma ThisThreadPublished(s: State, t: nat, copy: Key)
    requires Inv(s) && Enabled(s, PublishOne(t, copy))
    ensures ThreadOk(Published(s, t, copy), t)
  {
    hide Inv, HeadOk, LastOk, LogOk, VersionOk, LoopOrder, Held, Newest, SnapshotOk, LocksOk;
    PublishFacts(s, t, copy);
    PublishedLocks(s, t, copy);
    var th := s.threads[t];
    PublishedSnapshots(s, t, copy, th);
    SameSnapshot(Published(s, t, copy), th, th.(lo := th.lo + 1));
  }

  lemma PublishedLocks(s: State, t: nat, copy: Key)
    requires Inv(s) && Enabled(s, PublishOne(t, copy))
    ensures LocksOk(Published(s, t, copy), t, Published(s, t, copy).threads[t])
  {
    hide Inv, HeadOk, LastOk, LogOk, VersionOk, LoopOrder, Held, Newest, SnapshotOk, TimesOk, PlaceOk;
    PublishFacts(s, t, copy);
    HeldPublished(s, t, copy);
  }

  lemma SameSnapshot(s: State, th: Thread, th': Thread)
    requires SnapshotOk(s, th) && th'.seen == th.seen && th'.start == th.start && th'.time == th.time && th'.pc == th.pc && th'.k == th.k
    ensures SnapshotOk(s, th')
  {
  }

  lemma PublishKeeps(s: State, t: nat, copy: Key)
    requires Inv(s) && Enabled(s, PublishOne(t, copy))
    ensures Inv(Published(s, t, copy))
  {
    hide HeadsOk, VersionsOk, LogsOk, ThreadOk;
    var s' := Published(s, t, copy);
    MemoryPublished(s, t, copy);
    LogsPublished(s, t, copy);
    forall u: nat | u < |s'.threads| ensures ThreadOk(s', u) {
      if u == t { ThisThreadPublished(s, t, copy); } else { OtherThreadPublished(s, t, copy, u); }
    }
  }

  lemma MemoryPublished(s: State, t: nat, copy: Key)
    requires Inv(s) && Enabled(s, PublishOne(t, copy))
    ensures HeadsOk(Published(s, t, copy)) && VersionsOk(Published(s, t, copy))
  {
    hide HeadOk, VersionOk, LastOk, LogOk, ThreadOk;
    var s' := Published(s, t, copy);
    CopyOk(s, t, copy);
    forall w: Key | w in s'.info ensures HeadOk(s', w) && VersionOk(s', w) && LastOk(s', w) {
      if w != copy { OtherHeadPublished(s, t, copy, w); OtherVersionPublished(s, t, copy, w); }
    }
  }

  lemma LogsPublished(s: State, t: nat, copy: Key)
    requires Inv(s) && Enabled(s, PublishOne(t, copy))
    ensures LogsOk(Published(s, t, copy))
  {
    var s' := Published(s, t, copy);
    forall c: int | c in s'.log ensures LogOk(s', c) {
      assert LogOk(s, c);
      forall v: Key | v in s'.log[c].seen ensures SafeAt(s', v, c) { PublishedSafe(s, t, copy, v, c); }
    }
  }

  // ----- committing

  /** The moment of commit at time c; m is the state with the time and the mutex
      already changed. */
  ghost predicate CanCommit(s: State, m: State, t: nat, c: int) {
    && t < |s.threads| && m == s.(time := m.time, mutex := m.mutex)
    && (s.threads[t].pc.Timing? || s.threads[t].pc.CheckCommit?) && s.threads[t].hi == |s.threads[t].order|
    && 2 <= c && c % 2 == 0 && c !in s.log && c + 2 <= m.time && s.threads[t].start <= c
    && (forall v: Key :: v in s.threads[t].seen ==> SafeAt(s, v, c))
    && ((s.threads[t].pc.CheckCommit? && s.threads[t].time == c) || s.time - 1 <= c)
    && TimeMoves(s, m, t) && m.time >= 2
    && (m.mutex == s.mutex || m.mutex.None?) && (m.time % 2 == 1 ==> s.time % 2 == 1 && m.mutex == s.mutex)
    && (s.mutex == Some(t) ==> m.mutex.None?)
  }

  /** The write list of a committer: locked, newest, not yet superseded. */
  lemma OrderFacts(s: State, m: State, t: nat, c: int)
    requires Inv(s) && CanCommit(s, m, t, c)
    ensures var th := s.threads[t];
      && ThreadOk(s, t) && th.lo == 0 && Listed(s, th) && LoopOrder(C4Tree, th.order, th.writes.Keys) && Held(th) == th.order
  {
    Facts(s, t);
    var th := s.threads[t];
    assert th.order[0..|th.order|] == th.order;
    forall i: nat | i < |th.order| ensures th.order[i] in s.info && th.order[i] in th.writes { assert th.order[i] in th.order; }
  }

  lemma OrderFact(s: State, m: State, t: nat, c: int, v: Key)
    requires Inv(s) && t < |s.threads| && CanCommit(s, m, t, c) && v in s.threads[t].order
    ensures v in s.info && v in s.heads && s.heads[v] == Locked(t) && Newest(s, v) && v !in s.sup && s.info[v].rev < c
    ensures VersionOk(s, v)
  {
    OrderFacts(s, m, t, c);
    VersionFacts(s, v);
  }

  lemma {:induction false} WrittenKeys(info: map<Key, Version>, order: seq<Key>, writes: map<Key, int>, n: nat, obj: nat)
    requires n <= |order| && forall i :: 0 <= i < n ==> order[i] in info && order[i] in writes
    ensures obj in Written(info, order, writes, n) <==> exists j: nat :: j < n && info[order[j]].obj == obj
  {
    if n > 0 { WrittenKeys(info, order, writes, n - 1, obj); }
  }

  lemma {:induction false} WrittenValue(info: map<Key, Version>, order: seq<Key>, writes: map<Key, int>, n: nat, j: nat)
    requires j < n <= |order| && forall i :: 0 <= i < n ==> order[i] in info && order[i] in writes
    requires forall i: nat, k: nat :: i < n && k < n && info[order[i]].obj == info[order[k]].obj ==> i == k
    ensures info[order[j]].obj in Written(info, order, writes, n)
    ensures Written(info, order, writes, n)[info[order[j]].obj] == writes[order[j]]
  {
    if j < n - 1 { WrittenValue(info, order, writes, n - 1, j); }
  }

  /** No two versions of the write list are of the same object. */
  lemma OrderDistinct(s: State, m: State, t: nat, c: int)
    requires Inv(s) && t < |s.threads| && CanCommit(s, m, t, c) && Listed(s, s.threads[t])
    ensures var order := s.threads[t].order;
      forall i: nat, k: nat :: i < |order| && k < |order| && s.info[order[i]].obj == s.info[order[k]].obj ==> i == k
  {
    hide Inv, LoopOrder, CanCommit, VersionOk, Newest;
    var order := s.threads[t].order;
    forall i: nat, k: nat | i < |order| && k < |order| && s.info[order[i]].obj == s.info[order[k]].obj ensures i == k {
      OrderFact(s, m, t, c, order[i]);
      OrderFact(s, m, t, c, order[k]);
      OneNewest(s, order[i], order[k]);
      OrderFacts(s, m, t, c);
      Different(order, s.threads[t].writes.Keys, i, k);
    }
  }

  /** What the commit changes. */
  ghost predicate Commits(s: State, m: State, s': State, t: nat, c: int) {
    && t < |s.threads| && CanCommit(s, m, t, c) && s'.info == s.info && s'.heads == s.heads && s'.first == s.first && s'.time == m.time && s'.mutex == m.mutex
    && |s'.threads| == |s.threads| && s'.threads[t] == s.threads[t].(pc := Publishing, inev := false, time := c)
    && (forall u: nat {:trigger s'.threads[u]} :: u < |s.threads| && u != t ==> s'.threads[u] == s.threads[u])
    && c in s'.log && s'.log[c].seen == s.threads[t].seen
    && (forall d: int {:trigger s'.log[d]} {:trigger d in s'.log} :: d in s'.log <==> d in s.log || d == c)
    && (forall d: int {:trigger s'.log[d]} :: d in s.log ==> s'.log[d] == s.log[d])
    && (forall v: Key :: v in s'.sup <==> v in s.sup || v in s.threads[t].order)
    && (forall v: Key :: v in s'.sup ==> s'.sup[v] == if v in s.threads[t].order then c + 1 else s.sup[v])
    && WritesOk(s, s'.log[c].writes, s.threads[t])
  }

  /** The log entry holds what the write list holds. */
  ghost predicate WritesOk(s: State, writes: map<nat, int>, th: Thread) {
    && (forall v: Key {:trigger s.info[v]} {:trigger v in th.order} :: v in th.order ==>
         v in s.info && v in th.writes && s.info[v].obj in writes && writes[s.info[v].obj] == th.writes[v])
    && (forall obj: nat :: obj in writes ==> exists v: Key :: v in th.order && v in s.info && s.info[v].obj == obj)
  }

  lemma WritesAre(s: State, m: State, t: nat, c: int)
    requires Inv(s) && t < |s.threads| && CanCommit(s, m, t, c) && Listed(s, s.threads[t])
    ensures var th := s.threads[t]; WritesOk(s, Written(s.info, th.order, th.writes, |th.order|), th)
  {
    hide Inv, CanCommit;
    var th := s.threads[t];
    var writes := Written(s.info, th.order, th.writes, |th.order|);
    OrderDistinct(s, m, t, c);
    forall v: Key {:trigger s.info[v]} | v in th.order
      ensures v in s.info && v in th.writes && s.info[v].obj in writes && writes[s.info[v].obj] == th.writes[v]
    {
      var j: nat :| j < |th.order| && th.order[j] == v;
      WrittenValue(s.info, th.order, th.writes, |th.order|, j);
    }
    forall obj: nat | obj in writes ensures exists v: Key :: v in th.order && v in s.info && s.info[v].obj == obj {
      WrittenKeys(s.info, th.order, th.writes, |th.order|, obj);
      var j: nat :| j < |th.order| && s.info[th.order[j]].obj == obj;
      assert th.order[j] in th.order;
    }
  }

  lemma CommitCommits(s: State, m: State, t: nat, c: int)
    requires Inv(s) && t < |s.threads| && CanCommit(s, m, t, c) && Listed(s, s.threads[t])
    ensures Commits(s, m, Commit(m, t, c), t, c)
  {
    hide Inv, WritesOk, SafeAt;
    WritesAre(s, m, t, c);
  }

  lemma CommitNewest(s: State, m: State, s': State, t: nat, c: int, w: Key)
    requires Inv(s) && t < |s.threads| && Commits(s, m, s', t, c) && w in s.info && Newest(s, w)
    ensures Newest(s', w)
  {
    hide Inv, CanCommit, WritesOk, VersionOk;
    forall x: Key {:trigger s'.info[x]} | x in s'.info && x != w && s'.info[x].obj == s'.info[w].obj
      ensures x in s'.sup && s'.sup[x] <= s'.info[w].rev
    {
      assert x in s.info && s.info[x] == s'.info[x];
      StillSuperseded(s, m, s', t, c, x);
    }
  }

  lemma StillSuperseded(s: State, m: State, s': State, t: nat, c: int, x: Key)
    requires Inv(s) && t < |s.threads| && Commits(s, m, s', t, c) && x in s.sup
    ensures x in s'.sup && s'.sup[x] == s.sup[x] && x !in s.threads[t].order
  {
    hide Inv, CanCommit, WritesOk, VersionOk;
    if x in s.threads[t].order { OrderFact(s, m, t, c, x); }
  }

  lemma CommitHead(s: State, m: State, s': State, t: nat, c: int, w: Key)
    requires Inv(s) && t < |s.threads| && Commits(s, m, s', t, c) && w in s.info
    ensures HeadOk(s', w)
  {
    hide Inv, CanCommit, WritesOk, VersionOk, LoopOrder, Newest, ThreadOk, LastOk;
    VersionFacts(s, w);
    OrderFacts(s, m, t, c);
    if Newest(s, w) { CommitNewest(s, m, s', t, c, w); }
    if w in s.threads[t].order { OrderFact(s, m, t, c, w); }
  }

  /** Another version of an object that the commit writes is older. */
  lemma CommitQuiet(s: State, m: State, s': State, t: nat, c: int, w: Key)
    requires Inv(s) && t < |s.threads| && Commits(s, m, s', t, c) && w in s.info
    ensures Quiet(s', w)
  {
    hide Inv, CanCommit, HeadOk, LastOk;
    VersionFacts(s, w);
    forall d: int {:trigger s'.log[d]} | d in s'.log && s'.info[w].obj in s'.log[d].writes
      ensures d + 1 <= s'.info[w].rev || (w in s'.sup && s'.sup[w] <= d + 1)
    {
      if d == c {
        var v: Key :| v in s.threads[t].order && v in s.info && s.info[v].obj == s.info[w].obj;
        OrderFact(s, m, t, c, v);
        if w != v { StillSuperseded(s, m, s', t, c, w); }
      } else {
        assert s'.log[d] == s.log[d];
        if w in s.threads[t].order { OrderFact(s, m, t, c, w); }
      }
    }
  }

  lemma CommitVersion(s: State, m: State, s': State, t: nat, c: int, w: Key)
    requires Inv(s) && t < |s.threads| && Commits(s, m, s', t, c) && w in s.info
    ensures VersionOk(s', w)
  {
    hide Inv, HeadOk, LastOk, Quiet, Newest;
    VersionFacts(s, w);
    CommitQuiet(s, m, s', t, c, w);
    if w in s.threads[t].order { OrderFact(s, m, t, c, w); }
  }

  /** The versions that the commit is about to replace. */
  lemma CommitLastOwn(s: State, m: State, s': State, t: nat, c: int, w: Key)
    requires Inv(s) && t < |s.threads| && Commits(s, m, s', t, c) && w in s.threads[t].order
    ensures LastOk(s', w)
  {
    hide Inv, CanCommit, LoopOrder, Newest, WritesOk, LastOk;
    OrderFact(s, m, t, c, w);
    LastOkDef(s', w, t);
    forall d: int {:trigger s'.log[d]} | d in s'.log && s'.info[w].obj in s'.log[d].writes ensures d <= c {
      if d != c { assert s'.log[d] == s.log[d]; }
    }
  }

  lemma LastOkDef(s: State, w: Key, t: nat)
    requires w in s.info && w in s.heads && s.heads[w] == Locked(t) && t < |s.threads|
    ensures (forall d: int {:trigger s.log[d]} :: d in s.log && s.info[w].obj in s.log[d].writes ==> d <= s.threads[t].time) ==> LastOk(s, w)
  {
  }

  /** The versions that another commit is about to replace: this one does not write their objects. */
  lemma CommitLastOther(s: State, m: State, s': State, t: nat, c: int, w: Key)
    requires Inv(s) && t < |s.threads| && Commits(s, m, s', t, c) && w in s.info && w !in s.threads[t].order
    requires s.heads[w].Locked? && s.heads[w].owner < |s.threads|
    ensures s.info[w].obj !in s'.log[c].writes
  {
    hide Inv, CanCommit, LoopOrder, VersionOk, Newest, LastOk;
    VersionFacts(s, w);
    forall v: Key | v in s.threads[t].order && v in s.info ensures s.info[v].obj != s.info[w].obj {
      OrderFact(s, m, t, c, v);
      OneNewestIf(s, v, w);
    }
  }

  lemma OneNewestIf(s: State, v: Key, w: Key)
    requires v in s.info && w in s.info && Newest(s, v) && Newest(s, w) && VersionOk(s, v) && VersionOk(s, w)
    ensures s.info[v].obj == s.info[w].obj ==> v == w
  {
    if s.info[v].obj == s.info[w].obj { OneNewest(s, v, w); }
  }

  lemma CommitLast(s: State, m: State, s': State, t: nat, c: int, w: Key)
    requires Inv(s) && t < |s.threads| && Commits(s, m, s', t, c) && w in s.info
    ensures LastOk(s', w)
  {
    hide Inv, CanCommit, LoopOrder, VersionOk, WritesOk, Newest, Held;
    VersionFacts(s, w);
    if w in s.threads[t].order {
      CommitLastOwn(s, m, s', t, c, w);
    } else if s.heads[w].Locked? && s.heads[w].owner < |s.threads| {
      CommitLastOther(s, m, s', t, c, w);
      LockedInOrder(s, m, t, c, w);
    }
  }

  lemma LockedInOrder(s: State, m: State, t: nat, c: int, w: Key)
    requires Inv(s) && t < |s.threads| && CanCommit(s, m, t, c) && w in s.info && w !in s.threads[t].order
    ensures w in s.heads && s.heads[w] != Locked(t)
  {
    hide Inv, LoopOrder, VersionOk, Newest;
    VersionFacts(s, w);
    OrderFacts(s, m, t, c);
  }

  /** A version in the write list of a commit at time c is not part of a snapshot
      of a later time. */
  lemma NotYetRead(s: State, m: State, t: nat, c: int, v: Key, T: int)
    requires Inv(s) && t < |s.threads| && CanCommit(s, m, t, c) && SafeAt(s, v, T) && T <= s.time && T % 2 == 0 && v in s.threads[t].order
    ensures T <= c
  {
    hide Inv, LoopOrder, HeadOk, VersionOk, Newest, ThreadOk, Listed, Held;
    OrderFacts(s, m, t, c);
    InWrites(s.threads[t], v);
    Tightly(s, m, t, c, v, T);
  }

  lemma Tightly(s: State, m: State, t: nat, c: int, v: Key, T: int)
    requires t < |s.threads| && CanCommit(s, m, t, c) && SafeAt(s, v, T) && T <= s.time && T % 2 == 0 && v in s.threads[t].writes
    ensures T <= c
  {
  }

  lemma InWrites(th: Thread, v: Key)
    requires LoopOrder(C4Tree, th.order, th.writes.Keys) && v in th.order
    ensures v in th.writes
  {
  }

  lemma CommitSafe(s: State, m: State, s': State, t: nat, c: int, v: Key, T: int)
    requires Inv(s) && t < |s.threads| && Commits(s, m, s', t, c) && SafeAt(s, v, T) && T <= s.time && T % 2 == 0
    ensures SafeAt(s', v, T)
  {
    hide Inv, CanCommit, WritesOk;
    if v in s.threads[t].order { NotYetRead(s, m, t, c, v, T); }
    forall u: nat | u < |s'.threads| && s'.threads[u].pc.CheckCommit? && s'.threads[u].time < T ensures v !in s'.threads[u].writes {
      assert u != t && s'.threads[u] == s.threads[u];
    }
  }

  lemma CommitLogs(s: State, m: State, s': State, t: nat, c: int)
    requires Inv(s) && t < |s.threads| && Commits(s, m, s', t, c)
    ensures LogsOk(s')
  {
    hide SafeAt;
    forall d: int | d in s'.log ensures LogOk(s', d) {
      if d == c { CommitLog(s, m, s', t, c); } else {
        assert LogOk(s, d) && s'.log[d] == s.log[d];
        forall v: Key | v in s'.log[d].seen ensures SafeAt(s', v, d) { CommitSafe(s, m, s', t, c, v, d); }
      }
    }
  }

  lemma CommitLog(s: State, m: State, s': State, t: nat, c: int)
    requires Inv(s) && t < |s.threads| && Commits(s, m, s', t, c)
    ensures LogOk(s', c)
  {
    hide Inv;
    forall v: Key | v in s'.log[c].seen ensures SafeAt(s', v, c) {
      forall u: nat | u < |s'.threads| && s'.threads[u].pc.CheckCommit? && s'.threads[u].time < c ensures v !in s'.threads[u].writes {
        assert u != t && s'.threads[u] == s.threads[u];
      }
    }
  }

  lemma CommitSnapshot(s: State, m: State, s': State, t: nat, c: int, th: Thread)
    requires Inv(s) && t < |s.threads| && Commits(s, m, s', t, c) && SnapshotOk(s, th)
    requires th.seen != [] ==> th.start <= s.time && th.start % 2 == 0
    requires th.pc.CheckCommit? ==> th.time <= s.time && th.time % 2 == 0
    ensures SnapshotOk(s', th)
  {
    hide SafeAt, Inv, Commits;
    forall i: nat | i < |th.seen| && (th.pc.CheckRead? || th.pc.CheckInev? ==> i < th.k) ensures SafeAt(s', th.seen[i], th.start) {
      CommitSafe(s, m, s', t, c, th.seen[i], th.start);
    }
    forall i: nat | th.pc.CheckCommit? && i < |th.seen| && i < th.k ensures SafeAt(s', th.seen[i], th.time) {
      CommitSafe(s, m, s', t, c, th.seen[i], th.time);
    }
  }

  /** No other thread commits at this time. */
  lemma OtherTimes(s: State, m: State, t: nat, c: int, u: nat)
    requires Inv(s) && CanCommit(s, m, t, c) && u < |s.threads| && u != t && s.threads[u].pc.CheckCommit?
    ensures s.threads[u].time != c
  {
    assert ThreadOk(s, u);
  }

  lemma CommitOther(s: State, m: State, s': State, t: nat, c: int, u: nat)
    requires Inv(s) && t < |s.threads| && Commits(s, m, s', t, c) && u < |s.threads| && u != t
    ensures ThreadOk(s', u)
  {
    hide Inv, SafeAt, SnapshotOk, LoopOrder, Held;
    Facts(s, u);
    Facts(s, t);
    var th := s.threads[u];
    CommitSnapshot(s, m, s', t, c, th);
    if th.pc.CheckCommit? { OtherTimes(s, m, t, c, u); }
    CommitPlace(s, m, s', t, c, th);
  }

  lemma CommitPlace(s: State, m: State, s': State, t: nat, c: int, th: Thread)
    requires Inv(s) && t < |s.threads| && Commits(s, m, s', t, c) && PlaceOk(s, th)
    ensures PlaceOk(s', th)
  {
    hide Inv, CanCommit, WritesOk;
    forall v: Key | v in s.sup ensures v in s'.sup && s'.sup[v] == s.sup[v] { StillSuperseded(s, m, s', t, c, v); }
  }

  lemma PublishingSnapshot(s: State, th: Thread, c: int)
    requires SnapshotOk(s, th) && !th.pc.CheckRead? && !th.pc.CheckInev?
    ensures SnapshotOk(s, th.(pc := Publishing, inev := false, time := c))
  {
  }

  lemma CommitThisPlace(s: State, m: State, s': State, t: nat, c: int)
    requires Inv(s) && t < |s.threads| && Commits(s, m, s', t, c)
    ensures PlaceOk(s', s'.threads[t])
  {
    hide Inv, SafeAt, LoopOrder, CanCommit;
    var th := s'.threads[t];
    forall j: nat {:trigger th.order[j]} | th.lo <= j < |th.order|
      ensures var v := th.order[j];
        && v in s'.info && v in th.writes && v in s'.sup && s'.sup[v] == th.time + 1
        && s'.info[v].obj in s'.log[th.time].writes && s'.log[th.time].writes[s'.info[v].obj] == th.writes[v]
    {
      var v := th.order[j];
      assert v in s.threads[t].order;
      assert s.info[v].obj in s'.log[c].writes;
    }
  }

  lemma CommitThis(s: State, m: State, s': State, t: nat, c: int)
    requires Inv(s) && t < |s.threads| && Commits(s, m, s', t, c)
    ensures ThreadOk(s', t)
  {
    hide Inv, SafeAt, LoopOrder, WritesOk, PlaceOk, SnapshotOk;
    OrderFacts(s, m, t, c);
    CommitSnapshot(s, m, s', t, c, s.threads[t]);
    PublishingSnapshot(s', s.threads[t], c);
    CommitThisPlace(s, m, s', t, c);
    assert Held(s'.threads[t]) == Held(s.threads[t]);
  }

  lemma CommitKeeps(s: State, m: State, t: nat, c: int)
    requires Inv(s) && t < |s.threads| && CanCommit(s, m, t, c) && Listed(s, s.threads[t])
    ensures Inv(Commit(m, t, c))
  {
    hide HeadOk, VersionOk, LastOk, LogsOk, ThreadOk, SafeAt, WritesOk, MutexOk, DistinctOk;
    var s' := Commit(m, t, c);
    CommitCommits(s, m, t, c);
    forall w: Key | w in s'.info ensures HeadOk(s', w) && VersionOk(s', w) && LastOk(s', w) {
      CommitHead(s, m, s', t, c, w);
      CommitVersion(s, m, s', t, c, w);
      CommitLast(s, m, s', t, c, w);
    }
    CommitLogs(s, m, s', t, c);
    forall u: nat | u < |s'.threads| ensures ThreadOk(s', u) {
      if u == t { CommitThis(s, m, s', t, c); } else { CommitOther(s, m, s', t, c, u); }
    }
    CommitMutex(s, m, s', t, c);
  }

  lemma CommitMutex(s: State, m: State, s': State, t: nat, c: int)
    requires Inv(s) && t < |s.threads| && Commits(s, m, s', t, c)
    ensures MutexOk(s') && DistinctOk(s')
  {
    hide HeadsOk, VersionsOk, LogsOk, ThreadsOk, SafeAt, WritesOk;
    if s'.mutex.Some? { assert s'.mutex.value != t ==> s'.mutex.value < |s.threads| ==> s'.threads[s'.mutex.value] == s.threads[s'.mutex.value]; }
    forall a: nat, b: nat | a < |s'.threads| && b < |s'.threads| && s'.threads[a].pc.CheckCommit? && s'.threads[b].pc.CheckCommit?
      && s'.threads[a].time == s'.threads[b].time ensures a == b
    {
      assert a != t && b != t && s'.threads[a] == s.threads[a] && s'.threads[b] == s.threads[b];
    }
  }
}
