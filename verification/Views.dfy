/** The memory of the c7 library: one copy of every page for the committed
    state (segment 0) and, per segment, private copies of some pages.

    An address belongs to one object; an object may spread over several pages
    and a page may hold several objects, in any arrangement.  The functions
    here are the effects of the primitives of core.c and pages.c; the invariant
    `Coherent` is kept by each of them. */
module Views {
  import opened Wrappers
  import opened History

  const PAGE_SIZE: nat := 4096
  const MAX_VERSION: nat := 255

  /** `marked` is the set of objects marked since the version was last changed,
      and `log` is what the running transaction did; both are bookkeeping that
      the real segments do not have. */
  datatype SegmentState = SegmentState(
    bytes: seq<int>,       // this segment's own copy of the pages
    private: set<nat>,     // pages that are private here; the others alias segment 0
    markers: seq<nat>,     // one read marker per object
    version: nat,          // transaction_read_version
    modified: seq<nat>,    // modified_old_objects
    marked: set<nat>,
    log: seq<Op>)

  datatype Memory = Memory(
    owner: seq<nat>,       // owner[a] is the object that address a belongs to
    objects: nat,
    segs: seq<SegmentState>,    // segs[0].bytes is the committed state
    locks: seq<nat>,       // write_locks: 0, or the segment that is modifying the object
    committed: seq<seq<Op>>)

  function Page(a: nat): nat { a / PAGE_SIZE }

  ghost predicate WellFormed(m: Memory) {
    && |m.segs| > 0 && |m.locks| == m.objects
    && (forall a :: 0 <= a < |m.owner| ==> m.owner[a] < m.objects)
    && (forall t :: 0 <= t < |m.segs| ==> |m.segs[t].bytes| == |m.owner| && |m.segs[t].markers| == m.objects)
  }

  /** What segment `t` sees at address `a`. */
  function View(m: Memory, t: nat, a: nat): int
    requires WellFormed(m) && t < |m.segs| && a < |m.owner|
  {
    if t != 0 && Page(a) in m.segs[t].private then m.segs[t].bytes[a] else m.segs[0].bytes[a]
  }

  function ViewOf(m: Memory, t: nat): (r: seq<int>)
    requires WellFormed(m) && t < |m.segs|
    ensures |r| == |m.owner| && forall a :: 0 <= a < |r| ==> r[a] == View(m, t, a)
  {
    seq(|m.owner|, a requires 0 <= a < |m.owner| => View(m, t, a))
  }

  function Shared(m: Memory): seq<int>
    requires |m.segs| > 0
  {
    m.segs[0].bytes
  }

  ghost predicate Unique(s: seq<nat>) {
    forall i, j :: 0 <= i < j < |s| ==> s[i] != s[j]
  }

  // ----- the invariant

  /** Outside what it is modifying, every segment sees the committed state. */
  ghost predicate ViewsAgree(m: Memory)
    requires WellFormed(m)
  {
    forall t, a :: 0 < t < |m.segs| && 0 <= a < |m.owner| && m.owner[a] !in m.segs[t].modified
      ==> View(m, t, a) == Shared(m)[a]
  }

  /** The lock of an object names the one segment that lists it. */
  ghost predicate LocksMatch(m: Memory)
    requires WellFormed(m)
  {
    && m.segs[0].modified == [] && m.segs[0].log == []
    && (forall t :: 0 <= t < |m.segs| ==> Unique(m.segs[t].modified))
    && (forall t, o :: 0 <= t < |m.segs| && o in m.segs[t].modified ==> o < m.objects && t != 0)
    && (forall o :: 0 <= o < m.objects ==> m.locks[o] < |m.segs|)
    && (forall t, o :: 0 < t < |m.segs| && 0 <= o < m.objects ==> (m.locks[o] == t <==> o in m.segs[t].modified))
  }

  /** A marker equals the version exactly when the object was marked since the
      version last changed. */
  ghost predicate MarkersExact(m: Memory)
    requires WellFormed(m)
  {
    forall t :: 0 <= t < |m.segs| ==>
      && m.segs[t].version <= MAX_VERSION
      && (forall o :: 0 <= o < m.objects ==>
        && m.segs[t].markers[o] <= m.segs[t].version
        && (m.segs[t].markers[o] == m.segs[t].version <==> o in m.segs[t].marked))
  }

  /** Whatever a transaction loaded, stored or locked carries its marker. */
  ghost predicate AccessesMarked(m: Memory)
    requires WellFormed(m)
  {
    forall t :: 0 < t < |m.segs| ==>
      && (forall o :: o in m.segs[t].modified ==> o in m.segs[t].marked)
      && (forall a :: 0 <= a < |m.owner| && Touches(m.segs[t].log, a) ==> m.owner[a] in m.segs[t].marked)
  }

  /** Running a transaction's log alone on the committed state succeeds and
      leaves memory exactly as that transaction sees it now. */
  ghost predicate LogsReplay(m: Memory)
    requires WellFormed(m)
  {
    forall t :: 0 < t < |m.segs| ==> Replay(m.segs[t].log, Shared(m)) == Some(ViewOf(m, t))
  }

  ghost predicate Coherent(m: Memory) {
    WellFormed(m) && ViewsAgree(m) && LocksMatch(m) && MarkersExact(m) && AccessesMarked(m) && LogsReplay(m)
  }

  // ----- reading

  /** stm_read: mark the object in the segment's own read markers. */
  function MarkRead(m: Memory, t: nat, o: nat): Memory
    requires WellFormed(m) && 0 < t < |m.segs| && o < m.objects
  {
    var s := m.segs[t];
    m.(segs := m.segs[t := s.(markers := s.markers[o := s.version], marked := s.marked + {o})])
  }

  lemma MarkReadKeeps(m: Memory, t: nat, o: nat)
    requires Coherent(m) && 0 < t < |m.segs| && o < m.objects
    ensures Coherent(MarkRead(m, t, o)) && forall i :: 0 <= i < |m.segs| ==> ViewOf(MarkRead(m, t, o), i) == ViewOf(m, i)
  {
    var m' := MarkRead(m, t, o);
    forall i | 0 <= i < |m.segs| ensures ViewOf(m', i) == ViewOf(m, i) {
      forall a | 0 <= a < |m.owner| ensures View(m', i, a) == View(m, i, a) {}
    }
  }

  ghost predicate CanAccess(m: Memory, t: nat, a: nat) {
    && WellFormed(m) && 0 < t < |m.segs| && a < |m.owner|
    && m.segs[t].markers[m.owner[a]] == m.segs[t].version
  }

  /** Loading a field of an object that was read-marked before. */
  function LoadField(m: Memory, t: nat, a: nat): Memory
    requires CanAccess(m, t, a)
  {
    var s := m.segs[t];
    m.(segs := m.segs[t := s.(log := s.log + [Load(a, View(m, t, a))])])
  }

  lemma AppendTouches(log: seq<Op>, op: Op, a: nat)
    ensures Touches(log + [op], a) <==> Touches(log, a) || op.addr == a
  {
    FrontTouches(log + [op], a);
    assert (log + [op])[..|log|] == log;
  }

  /** Logging an access to an object that is marked. */
  lemma AppendMarked(m: Memory, m': Memory, t: nat, op: Op)
    requires WellFormed(m) && WellFormed(m') && |m.segs| == |m'.segs| && m.owner == m'.owner && 0 < t < |m.segs|
    requires m'.segs[t].log == m.segs[t].log + [op] && op.addr < |m.owner| && m.owner[op.addr] in m.segs[t].marked
    requires forall i :: 0 < i < |m.segs| && i != t ==> m'.segs[i].log == m.segs[i].log
    requires forall i :: 0 < i < |m.segs| ==> m'.segs[i].modified == m.segs[i].modified && m'.segs[i].marked == m.segs[i].marked
    requires AccessesMarked(m)
    ensures AccessesMarked(m')
  {
    forall b { AppendTouches(m.segs[t].log, op, b); }
  }

  lemma LoadFieldKeeps(m: Memory, t: nat, a: nat)
    requires Coherent(m) && CanAccess(m, t, a)
    ensures Coherent(LoadField(m, t, a))
  {
    hide AccessesMarked, ViewsAgree;
    var m' := LoadField(m, t, a);
    SameViews(m, m');
    var op := Load(a, View(m, t, a));
    ReplayAppend(m.segs[t].log, op, Shared(m));
    AppendMarked(m, m', t, op);
  }

  lemma SameViews(m: Memory, m': Memory)
    requires WellFormed(m) && WellFormed(m') && |m.segs| == |m'.segs| && m.owner == m'.owner
    requires forall i :: 0 <= i < |m.segs| ==> m'.segs[i].bytes == m.segs[i].bytes && m'.segs[i].private == m.segs[i].private
    ensures forall i :: 0 <= i < |m.segs| ==> ViewOf(m', i) == ViewOf(m, i)
    ensures ViewsAgree(m) && (forall i :: 0 < i < |m.segs| ==> m'.segs[i].modified == m.segs[i].modified) ==> ViewsAgree(m')
  {
    forall i | 0 <= i < |m.segs| ensures ViewOf(m', i) == ViewOf(m, i) {
      forall a | 0 <= a < |m.owner| ensures View(m', i, a) == View(m, i, a) {}
    }
    if ViewsAgree(m) && forall i :: 0 < i < |m.segs| ==> m'.segs[i].modified == m.segs[i].modified {
      forall i, a | 0 < i < |m.segs| && 0 <= a < |m.owner| && m.owner[a] !in m'.segs[i].modified
        ensures View(m', i, a) == Shared(m')[a]
      {
        assert View(m', i, a) == View(m, i, a);
      }
    }
  }

  // ----- writing

  /** The write barrier on an object nobody is modifying: mark it as read, take
      its lock and list it. */
  function TakeLock(m: Memory, t: nat, o: nat): Memory
    requires WellFormed(m) && 0 < t < |m.segs| && o < m.objects
  {
    var m1 := MarkRead(m, t, o);
    m1.(locks := m1.locks[o := t],
        segs := m1.segs[t := m1.segs[t].(modified := m1.segs[t].modified + [o])])
  }

  lemma TakeLockKeeps(m: Memory, t: nat, o: nat)
    requires Coherent(m) && 0 < t < |m.segs| && o < m.objects && m.locks[o] == 0
    ensures Coherent(TakeLock(m, t, o))
  {
    hide ViewsAgree, LocksMatch;
    MarkReadKeeps(m, t, o);
    var m1, m' := MarkRead(m, t, o), TakeLock(m, t, o);
    SameViews(m1, m');
    TakeLockMatches(m, t, o);
    TakeLockAgrees(m, t, o);
  }

  lemma TakeLockMatches(m: Memory, t: nat, o: nat)
    requires WellFormed(m) && LocksMatch(m) && 0 < t < |m.segs| && o < m.objects && m.locks[o] == 0
    ensures WellFormed(TakeLock(m, t, o)) && LocksMatch(TakeLock(m, t, o))
  {
    assert o !in m.segs[t].modified;
  }

  lemma TakeLockAgrees(m: Memory, t: nat, o: nat)
    requires Coherent(m) && 0 < t < |m.segs| && o < m.objects
    ensures ViewsAgree(TakeLock(m, t, o))
  {
    MarkReadKeeps(m, t, o);
    var m1, m' := MarkRead(m, t, o), TakeLock(m, t, o);
    SameViews(m1, m');
    forall i, a | 0 < i < |m.segs| && 0 <= a < |m.owner| && m.owner[a] !in m'.segs[i].modified
      ensures View(m', i, a) == Shared(m')[a]
    {
      assert View(m', i, a) == View(m1, i, a);
      assert m.owner[a] !in m1.segs[i].modified;
    }
  }

  /** page_privatize: give the segment its own copy of a page. */
  function Privatize(m: Memory, t: nat, p: nat): Memory
    requires WellFormed(m) && 0 < t < |m.segs|
  {
    var s := m.segs[t];
    if p in s.private then m else
      m.(segs := m.segs[t := s.(
        private := s.private + {p},
        bytes := seq(|m.owner|, a requires 0 <= a < |m.owner| => if Page(a) == p then m.segs[0].bytes[a] else s.bytes[a]))])
  }

  lemma PrivatizeKeeps(m: Memory, t: nat, p: nat)
    requires Coherent(m) && 0 < t < |m.segs|
    ensures Coherent(Privatize(m, t, p)) && forall i :: 0 <= i < |m.segs| ==> ViewOf(Privatize(m, t, p), i) == ViewOf(m, i)
  {
    var m' := Privatize(m, t, p);
    forall i | 0 <= i < |m.segs| ensures ViewOf(m', i) == ViewOf(m, i) {
      forall a | 0 <= a < |m.owner| ensures View(m', i, a) == View(m, i, a) {}
    }
    forall i, a | 0 < i < |m.segs| && 0 <= a < |m.owner| && m.owner[a] !in m'.segs[i].modified
      ensures View(m', i, a) == Shared(m')[a]
    {
      assert View(m', i, a) == View(m, i, a);
    }
  }

  ghost predicate CanStore(m: Memory, t: nat, a: nat) {
    && WellFormed(m) && 0 < t < |m.segs| && a < |m.owner|
    && m.locks[m.owner[a]] == t && Page(a) in m.segs[t].private
  }

  function StoreField(m: Memory, t: nat, a: nat, v: int): Memory
    requires CanStore(m, t, a)
  {
    var s := m.segs[t];
    m.(segs := m.segs[t := s.(bytes := s.bytes[a := v], log := s.log + [Store(a, v)])])
  }

  lemma LockedIsMarked(m: Memory, t: nat, o: nat)
    requires Coherent(m) && 0 < t < |m.segs| && o < m.objects && m.locks[o] == t
    ensures o in m.segs[t].marked
  {
    assert o in m.segs[t].modified;
  }

  lemma StoreFieldKeeps(m: Memory, t: nat, a: nat, v: int)
    requires Coherent(m) && CanStore(m, t, a)
    ensures Coherent(StoreField(m, t, a, v))
    ensures ViewOf(StoreField(m, t, a, v), t) == ViewOf(m, t)[a := v]
    ensures forall i :: 0 <= i < |m.segs| && i != t ==> ViewOf(StoreField(m, t, a, v), i) == ViewOf(m, i)
  {
    hide AccessesMarked;
    var m' := StoreField(m, t, a, v);
    forall i, b | 0 <= i < |m.segs| && 0 <= b < |m.owner|
      ensures View(m', i, b) == if i == t && b == a then v else View(m, i, b)
    {}
    assert ViewOf(m', t) == ViewOf(m, t)[a := v];
    forall i | 0 <= i < |m.segs| && i != t ensures ViewOf(m', i) == ViewOf(m, i) {}
    ReplayAppend(m.segs[t].log, Store(a, v), Shared(m));
    LockedIsMarked(m, t, m.owner[a]);
    AppendMarked(m, m', t, Store(a, v));
    assert ViewsAgree(m');
  }

  // ----- ending a transaction

  function Unlock(m: Memory, t: nat): seq<nat>
    requires WellFormed(m) && t < |m.segs|
  {
    seq(m.objects, o requires 0 <= o < m.objects => if o in m.segs[t].modified then 0 else m.locks[o])
  }

  /** Abort: pull the modified objects back from segment 0. */
  function Reset(m: Memory, t: nat): Memory
    requires WellFormed(m) && 0 < t < |m.segs|
  {
    var s := m.segs[t];
    m.(locks := Unlock(m, t),
       segs := m.segs[t := s.(
         modified := [], log := [],
         bytes := seq(|m.owner|, a requires 0 <= a < |m.owner| =>
           if m.owner[a] in s.modified && Page(a) in s.private then m.segs[0].bytes[a] else s.bytes[a]))])
  }

  lemma ResetKeeps(m: Memory, t: nat)
    requires Coherent(m) && 0 < t < |m.segs|
    ensures Coherent(Reset(m, t))
    ensures ViewOf(Reset(m, t), t) == Shared(m)
    ensures forall i :: 0 <= i < |m.segs| && i != t ==> ViewOf(Reset(m, t), i) == ViewOf(m, i)
  {
    var m' := Reset(m, t);
    forall i, a | 0 <= i < |m.segs| && 0 <= a < |m.owner|
      ensures View(m', i, a) == if i == t then Shared(m)[a] else View(m, i, a)
    {
      if i == t && m.owner[a] !in m.segs[t].modified { assert View(m, t, a) == Shared(m)[a]; }
    }
    assert ViewOf(m', t) == Shared(m);
    forall i | 0 <= i < |m.segs| && i != t ensures ViewOf(m', i) == ViewOf(m, i) {}
  }

  /** Commit: push the modified objects into segment 0 and into every private
      copy of them elsewhere. */
  function Push(m: Memory, t: nat): Memory
    requires WellFormed(m) && 0 < t < |m.segs|
  {
    m.(locks := Unlock(m, t),
       committed := m.committed + [m.segs[t].log],
       segs := seq(|m.segs|, i requires 0 <= i < |m.segs| => Pushed(m, t, i)))
  }

  function Pushed(m: Memory, t: nat, i: nat): SegmentState
    requires WellFormed(m) && 0 < t < |m.segs| && i < |m.segs|
  {
    var s := m.segs[i];
    if i == t then s.(modified := [], log := []) else
      s.(bytes := seq(|m.owner|, a requires 0 <= a < |m.owner| =>
        if m.owner[a] in m.segs[t].modified && (i == 0 || Page(a) in s.private) then View(m, t, a) else s.bytes[a]))
  }

  /** No other transaction used what `t` wants to commit. */
  ghost predicate NoConflict(m: Memory, t: nat)
    requires WellFormed(m) && t < |m.segs|
  {
    forall i, o :: 0 < i < |m.segs| && i != t && o in m.segs[t].modified ==> !Touched(m, i, o)
  }

  /** Some field of `o` was loaded or stored by the transaction of segment `i`,
      or `o` is locked by it. */
  ghost predicate Touched(m: Memory, i: nat, o: nat)
    requires i < |m.segs|
  {
    o in m.segs[i].modified || exists a :: 0 <= a < |m.owner| && m.owner[a] == o && Touches(m.segs[i].log, a)
  }

  lemma PushViews(m: Memory, t: nat)
    requires Coherent(m) && 0 < t < |m.segs|
    ensures WellFormed(Push(m, t)) && Shared(Push(m, t)) == ViewOf(m, t)
    ensures forall i, a :: 0 <= i < |m.segs| && 0 <= a < |m.owner| ==>
      View(Push(m, t), i, a) == if m.owner[a] in m.segs[t].modified then View(m, t, a) else View(m, i, a)
  {
    var m' := Push(m, t);
    forall i, a | 0 <= i < |m.segs| && 0 <= a < |m.owner|
      ensures View(m', i, a) == if m.owner[a] in m.segs[t].modified then View(m, t, a) else View(m, i, a)
    {
      if m.owner[a] !in m.segs[t].modified { assert View(m, t, a) == Shared(m)[a]; }
    }
    forall a | 0 <= a < |m.owner| ensures Shared(m')[a] == View(m, t, a) {
      assert Shared(m')[a] == View(m', 0, a);
      if m.owner[a] !in m.segs[t].modified { assert View(m, t, a) == Shared(m)[a]; }
    }
    assert Shared(m') == ViewOf(m, t);
  }

  lemma PushKeepsLogs(m: Memory, t: nat, i: nat)
    requires Coherent(m) && 0 < t < |m.segs| && NoConflict(m, t) && 0 < i < |m.segs|
    ensures WellFormed(Push(m, t))
    ensures Replay(Push(m, t).segs[i].log, Shared(Push(m, t))) == Some(ViewOf(Push(m, t), i))
  {
    var m' := Push(m, t);
    PushViews(m, t);
    var log, old0, new0 := m'.segs[i].log, Shared(m), Shared(m');
    if i == t {
      assert ViewOf(m', t) == new0 by {
        forall a | 0 <= a < |m.owner| ensures View(m', t, a) == new0[a] {}
      }
    } else {
      assert log == m.segs[i].log;
      forall a | 0 <= a < |m.owner| && Touches(log, a) ensures old0[a] == new0[a] {
        assert Touched(m, i, m.owner[a]);
        assert m.owner[a] !in m.segs[t].modified;
        assert View(m, t, a) == old0[a];
      }
      ReplayFrame(log, old0, new0);
      var r := Replay(log, new0).value;
      forall a | 0 <= a < |m.owner| ensures r[a] == View(m', i, a) {
        if !Touches(log, a) {
          ReplayLeavesUntouched(log, new0, a);
          ReplayLeavesUntouched(log, old0, a);
          assert Replay(log, old0).value[a] == View(m, i, a);
        } else {
          assert Touched(m, i, m.owner[a]);
        }
      }
      assert r == ViewOf(m', i);
    }
  }

  lemma PushKeeps(m: Memory, t: nat)
    requires Coherent(m) && 0 < t < |m.segs| && NoConflict(m, t)
    ensures Coherent(Push(m, t))
  {
    var m' := Push(m, t);
    PushViews(m, t);
    forall i | 0 < i < |m.segs| ensures Replay(m'.segs[i].log, Shared(m')) == Some(ViewOf(m', i)) {
      PushKeepsLogs(m, t, i);
    }
    forall i, a | 0 < i < |m.segs| && 0 <= a < |m.owner| && m.owner[a] !in m'.segs[i].modified
      ensures View(m', i, a) == Shared(m')[a]
    {
      if m.owner[a] !in m.segs[t].modified { assert View(m, t, a) == Shared(m)[a]; }
    }
    PushKeepsLocks(m, t);
  }

  lemma PushKeepsLocks(m: Memory, t: nat)
    requires Coherent(m) && 0 < t < |m.segs|
    ensures WellFormed(Push(m, t)) && LocksMatch(Push(m, t))
  {
    var m' := Push(m, t);
    forall i, o | 0 < i < |m.segs| && 0 <= o < m.objects
      ensures m'.locks[o] == i <==> o in m'.segs[i].modified
    {
      assert m.locks[o] == i <==> o in m.segs[i].modified;
      assert m.locks[o] == t <==> o in m.segs[t].modified;
    }
  }

  /** Starting a transaction: a new version, or all markers wiped when the
      version wraps around. */
  function NewVersion(m: Memory, t: nat): Memory
    requires WellFormed(m) && 0 < t < |m.segs|
  {
    var s := m.segs[t];
    m.(segs := m.segs[t :=
      if s.version == MAX_VERSION
      then s.(version := 1, markers := seq(m.objects, _ => 0), marked := {})
      else s.(version := s.version + 1, marked := {})])
  }

  lemma NewVersionKeeps(m: Memory, t: nat)
    requires Coherent(m) && 0 < t < |m.segs| && m.segs[t].log == [] && m.segs[t].modified == []
    ensures Coherent(NewVersion(m, t)) && NewVersion(m, t).segs[t].marked == {}
  {
    SameViews(m, NewVersion(m, t));
  }

  /** Major collection: a private page goes back to being an alias of segment 0
      unless its segment is modifying an object on it. */
  ghost predicate HoldsModified(m: Memory, t: nat, p: nat)
    requires t < |m.segs|
  {
    exists a :: 0 <= a < |m.owner| && Page(a) == p && m.owner[a] in m.segs[t].modified
  }

  ghost function Reshare(m: Memory): Memory
    requires WellFormed(m)
  {
    m.(segs := seq(|m.segs|, i requires 0 <= i < |m.segs| =>
      m.segs[i].(private := set p | p in m.segs[i].private && HoldsModified(m, i, p))))
  }

  lemma ReshareKeeps(m: Memory)
    requires Coherent(m)
    ensures Coherent(Reshare(m)) && forall i :: 0 <= i < |m.segs| ==> ViewOf(Reshare(m), i) == ViewOf(m, i)
  {
    var m' := Reshare(m);
    forall i, a | 0 <= i < |m.segs| && 0 <= a < |m.owner| ensures View(m', i, a) == View(m, i, a) {
      if i != 0 && Page(a) in m.segs[i].private && Page(a) !in m'.segs[i].private {
        assert !HoldsModified(m, i, Page(a));
        assert m.owner[a] !in m.segs[i].modified;
      }
    }
    forall i | 0 <= i < |m.segs| ensures ViewOf(m', i) == ViewOf(m, i) {}
    assert ViewsAgree(m') by {
      forall i, a | 0 < i < |m.segs| && 0 <= a < |m.owner| && m.owner[a] !in m'.segs[i].modified
        ensures View(m', i, a) == Shared(m')[a]
      {
        assert View(m', i, a) == View(m, i, a);
      }
    }
  }
}
