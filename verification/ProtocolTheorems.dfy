/** What holds in every run of the protocol. */
module ProtocolTheorems {
  import opened Wrappers
  import opened History
  import opened Views
  import opened Protocol
  import opened ProtocolSafety

  ghost predicate Follows(st: State, a: Action, st': State) {
    Enabled(st, a) && Next(st, a) == Some(st')
  }

  ghost predicate IsRun(states: seq<State>, acts: seq<Action>) {
    |states| == |acts| + 1 && forall i :: 0 <= i < |acts| ==> Follows(states[i], acts[i], states[i + 1])
  }

  /** A run from stm_setup, with `segments` segments and any arrangement of
      objects in memory. */
  ghost predicate StartsFresh(states: seq<State>, segments: nat, owner: seq<nat>, objects: nat, bytes: seq<int>) {
    && |states| > 0 && states[0] == Initial(segments, owner, objects, bytes)
    && |bytes| == |owner| && forall a :: 0 <= a < |owner| ==> owner[a] < objects
  }

  lemma InitialInv(segments: nat, owner: seq<nat>, objects: nat, bytes: seq<int>)
    requires |bytes| == |owner| && forall a :: 0 <= a < |owner| ==> owner[a] < objects
    ensures Inv(Initial(segments, owner, objects, bytes))
  {
    var m := Initial(segments, owner, objects, bytes).mem;
    forall t | 0 < t < |m.segs| ensures ViewOf(m, t) == Shared(m) {}
  }

  lemma StepKeepsInv(st: State, a: Action, st': State)
    requires Inv(st) && Follows(st, a, st')
    ensures Inv(st')
  {
    ActionKeeps(st, a);
  }

  lemma {:induction false} RunKeepsInv(states: seq<State>, acts: seq<Action>, i: nat)
    requires IsRun(states, acts) && Inv(states[0]) && i < |states|
    ensures Inv(states[i])
  {
    hide Inv, Follows;
    if i > 0 {
      RunKeepsInv(states, acts, i - 1);
      StepKeepsInv(states[i - 1], acts[i - 1], states[i]);
    }
  }

  /** No run ever meets a failed assertion or a fatal error. */
  lemma NeverFatal(states: seq<State>, acts: seq<Action>, i: nat, a: Action)
    requires IsRun(states, acts) && Inv(states[0]) && i < |states| && Enabled(states[i], a)
    ensures Next(states[i], a).Some?
  {
    RunKeepsInv(states, acts, i);
    ActionKeeps(states[i], a);
  }

  // ----- serializability

  /** The committed transactions, run one at a time in commit order, make the
      committed state. */
  ghost predicate Serial(st: State, start: seq<int>) {
    |st.mem.segs| > 0 && ReplayAll(st.mem.committed, start) == Some(Shared(st.mem))
  }

  /** Only a commit changes the committed state. */
  lemma OnlyCommitsPublish(st: State, a: Action, st': State)
    requires Inv(st) && Follows(st, a, st') && !a.DoCommit?
    ensures |st'.mem.segs| > 0 && Shared(st'.mem) == Shared(st.mem) && st'.mem.committed == st.mem.committed
  {
    if a.Step? { StepMemory(st, a.t); }
  }

  lemma CommitSerial(st: State, a: Action, st': State, start: seq<int>)
    requires Inv(st) && Follows(st, a, st') && a.DoCommit? && Serial(st, start)
    ensures Serial(st', start)
  {
    var m, t := st.mem, a.t;
    PushViews(m, t);
    ReplayAllAppend(m.committed, m.segs[t].log, start);
    assert st'.mem == Push(m, t);
  }

  lemma StepSerial(st: State, a: Action, st': State, start: seq<int>)
    requires Inv(st) && Follows(st, a, st') && Serial(st, start)
    ensures Serial(st', start)
  {
    if a.DoCommit? { CommitSerial(st, a, st', start); } else { OnlyCommitsPublish(st, a, st'); }
  }

  lemma {:induction false} RunIsSerial(states: seq<State>, acts: seq<Action>, start: seq<int>, i: nat)
    requires IsRun(states, acts) && Inv(states[0]) && Serial(states[0], start) && i < |states|
    ensures Serial(states[i], start)
  {
    if i > 0 {
      RunIsSerial(states, acts, start, i - 1);
      RunKeepsInv(states, acts, i - 1);
      StepSerial(states[i - 1], acts[i - 1], states[i], start);
    }
  }

  /** Serializability of every run: the committed transactions are equivalent to
      running them one at a time in commit order, each seeing exactly what it
      saw; and every transaction that may still go on sees at all times exactly
      what it would see if it had run alone on the committed state. */
  lemma Serializability(states: seq<State>, acts: seq<Action>, segments: nat, owner: seq<nat>, objects: nat, bytes: seq<int>, i: nat)
    requires IsRun(states, acts) && StartsFresh(states, segments, owner, objects, bytes) && i < |states|
    ensures Inv(states[i])
    ensures ReplayAll(states[i].mem.committed, bytes) == Some(Shared(states[i].mem))
    ensures forall t :: 0 < t < |states[i].mem.segs| ==>
      Replay(states[i].mem.segs[t].log, Shared(states[i].mem)) == Some(ViewOf(states[i].mem, t))
  {
    InitialInv(segments, owner, objects, bytes);
    RunKeepsInv(states, acts, i);
    RunIsSerial(states, acts, bytes, i);
  }

  /** At its commit, every value a transaction loaded before storing there
      itself is still the committed one. */
  lemma CommitReadsCurrent(st: State, t: nat, i: nat)
    requires Inv(st) && Enabled(st, DoCommit(t))
    requires var log := st.mem.segs[t].log;
      i < |log| && log[i].Load? && forall j :: 0 <= j < i && log[j].Store? ==> log[j].addr != log[i].addr
    ensures var op := st.mem.segs[t].log[i]; op.addr < |Shared(st.mem)| && Shared(st.mem)[op.addr] == op.value
  {
    FirstLoadsSeeStart(st.mem.segs[t].log, Shared(st.mem), i);
  }

  /** Views agree on everything a segment is not modifying, and the lock of an
      object is the number of the one segment that is modifying it. */
  lemma ViewAgreement(states: seq<State>, acts: seq<Action>, i: nat, t: nat, a: nat)
    requires IsRun(states, acts) && Inv(states[0]) && i < |states|
    requires 0 < t < |states[i].mem.segs| && a < |states[i].mem.owner|
    ensures var m := states[i].mem;
      && WellFormed(m)
      && (m.owner[a] !in m.segs[t].modified ==> View(m, t, a) == Shared(m)[a])
      && (m.locks[m.owner[a]] == t <==> m.owner[a] in m.segs[t].modified)
  {
    RunKeepsInv(states, acts, i);
  }

  // ----- read markers

  /** The objects that the transaction on segment `t` has read so far. */
  function ReadSet(st: State, t: nat): set<nat>
    requires t < |st.threads| == |st.mem.segs|
  {
    if Unstarted(st.threads[t].pc) then {} else st.mem.segs[t].marked
  }

  ghost predicate MarkersTell(st: State, t: nat)
    requires t < |st.threads| == |st.mem.segs| && WellFormed(st.mem)
  {
    forall o :: 0 <= o < st.mem.objects ==>
      (st.mem.segs[t].markers[o] == st.mem.segs[t].version <==> o in ReadSet(st, t))
  }

  /** "The marker equals the version if and only if the object was read in the
      current transaction" is true once the version was changed, also across the
      wrap-around.  Between the start of a transaction and that moment, the markers
      that equal the version are still those of what was marked under it (by the
      transaction before: StaleMarkers), so it is true exactly if that is nothing. */
  lemma MarkersTellExactly(st: State, t: nat)
    requires Inv(st) && 0 < t < |st.threads|
    ensures MarkersTell(st, t) <==>
      (!Unstarted(st.threads[t].pc) || forall o :: 0 <= o < st.mem.objects ==> o !in st.mem.segs[t].marked)
  {
  }

  /** Whoever has not run any of its program has marked nothing. */
  lemma UnstartedMarksNothing(st: State, a: Action, st': State, t: nat)
    requires 0 < t < |st.threads| == |st.mem.segs| && t < |st'.threads| == |st'.mem.segs|
    requires Inv(st) && Follows(st, a, st') && Unstarted(st'.threads[t].pc)
    ensures st'.mem.segs[t].marked == st.mem.segs[t].marked
  {
    hide ThreadOk, PairOk, WaitOk, GlobalOk, Manage, Wake, Poll, Count, Abort, Commit, Push, Reset,
      MarkRead, LoadField, TakeLock, Privatize, StoreField, NewVersion, Reshare;
    match a
    case Step(_) => StepMemory(st, a.t); ResetMarks(st.mem, st'.mem, t);
    case DoCommit(_) => CommitMemory(st, a.t); PushMarks(st.mem, a.t, t);
    case DoCollect(_) => ReshareMarks(st.mem, t);
    case _ => if t != a.t { ProgramTouches(st, a, t); }
  }

  lemma ResetMarks(m: Memory, m': Memory, t: nat)
    requires Resets(m, m') && t < |m.segs|
    ensures |m'.segs| == |m.segs| && m'.segs[t].marked == m.segs[t].marked
  {
  }

  lemma PushMarks(m: Memory, t: nat, i: nat)
    requires WellFormed(m) && 0 < t < |m.segs| && i < |m.segs|
    ensures |Push(m, t).segs| == |m.segs| && Push(m, t).segs[i].marked == m.segs[i].marked
  {
    assert Push(m, t).segs[i] == Pushed(m, t, i);
  }

  lemma ReshareMarks(m: Memory, t: nat)
    requires WellFormed(m) && t < |m.segs|
    ensures |Reshare(m).segs| == |m.segs| && Reshare(m).segs[t].marked == m.segs[t].marked
  {
  }

  /** What a thread does to memory without the mutex concerns its own segment. */
  lemma ProgramTouches(st: State, a: Action, t: nat)
    requires Enabled(st, a) && !a.Step? && !a.DoCommit? && !a.DoCollect? && t != a.t && t < |st.mem.segs|
    ensures Next(st, a).Some? && |Next(st, a).value.mem.segs| == |st.mem.segs| && Next(st, a).value.mem.segs[t] == st.mem.segs[t]
  {
  }

  lemma CommitMemory(st: State, t: nat)
    requires WellFormed(st.mem) && 0 < t < |st.threads| == |st.mem.segs|
    ensures Commit(st, t).Some? ==> Commit(st, t).value.mem == Push(st.mem, t)
  {
  }

  lemma {:induction false} StaleInRun(states: seq<State>, acts: seq<Action>, i: nat, j: nat, t: nat)
    requires IsRun(states, acts) && Inv(states[0]) && i <= j < |states| && 0 < t < |states[i].threads|
    requires forall k :: i < k <= j ==> t < |states[k].threads| && Unstarted(states[k].threads[t].pc)
    ensures t < |states[i].mem.segs| && t < |states[j].mem.segs| && states[j].mem.segs[t].marked == states[i].mem.segs[t].marked
  {
    hide Follows, Unstarted, Coherent;
    RunKeepsInv(states, acts, i);
    RunKeepsInv(states, acts, j);
    if i < j {
      StaleInRun(states, acts, i, j - 1, t);
      RunKeepsInv(states, acts, j - 1);
      assert Follows(states[j - 1], acts[j - 1], states[j]);
      UnstartedMarksNothing(states[j - 1], acts[j - 1], states[j], t);
    }
  }

  /** Where stale markers come from.  Let a transaction of segment t end just after
      states[i], and the next one not have changed the version by states[j].  Then the
      objects whose marker equals the version are exactly those that the one before
      has read, and the promise is kept exactly if it has read nothing. */
  lemma StaleMarkers(states: seq<State>, acts: seq<Action>, i: nat, j: nat, t: nat)
    requires IsRun(states, acts) && Inv(states[0]) && i < j < |states| && 0 < t < |states[i].threads|
    requires !Unstarted(states[i].threads[t].pc)
    requires forall k :: i < k <= j ==> t < |states[k].threads| && Unstarted(states[k].threads[t].pc)
    ensures Inv(states[i]) && Inv(states[j])
    ensures forall o :: 0 <= o < states[j].mem.objects ==>
      (states[j].mem.segs[t].markers[o] == states[j].mem.segs[t].version <==> o in ReadSet(states[i], t))
    ensures MarkersTell(states[j], t) <==> forall o :: 0 <= o < states[j].mem.objects ==> o !in ReadSet(states[i], t)
  {
    StaleInRun(states, acts, i, j, t);
    RunKeepsInv(states, acts, i);
    RunKeepsInv(states, acts, j);
  }

  // ----- stopping the world

  /** After synchronize_all_threads, no other thread is running until the mutex is
      given back; and while a transaction is globally unique, no other one runs
      the program.  (That none is even SP_RUNNING is not true: RunningWhileUnique.) */
  lemma WorldIsStopped(st: State, t: nat, u: nat)
    requires Inv(st) && 0 < t < |st.threads| && 0 < u < |st.threads| && t != u
    ensures WorldStopped(st.threads[t].pc) ==> st.mutex == t && st.threads[u].sp != SpRunning
    ensures st.unique && st.threads[t].status == Inevitable ==>
      st.threads[u].status != Inevitable && st.threads[u].pc !in {User, Fresh} && !WorldStopped(st.threads[u].pc)
  {
    assert ThreadOk(st, t) && ThreadOk(st, u) && PairOk(st, t, u);
  }

  /** While a transaction is globally unique, another thread is SP_RUNNING exactly
      as long as it holds the mutex: when it has just started, or has just woken up
      from a cond_wait and not yet looked at its signals. */
  lemma RunningWhileUnique(st: State, t: nat, u: nat)
    requires Inv(st) && 0 < t < |st.threads| && 0 < u < |st.threads| && t != u && st.unique && st.threads[t].status == Inevitable
    ensures st.threads[u].sp == SpRunning <==> st.mutex == u
  {
    assert ThreadOk(st, t) && ThreadOk(st, u) && PairOk(st, t, u);
  }

  /** So "no other segment is SP_RUNNING until it commits" fails with every start. */
  lemma StartWhileUnique(st: State, u: nat)
    requires Inv(st) && st.unique && Enabled(st, Start(u))
    ensures var o := Next(st, Start(u)); o.Some? && o.value.unique && o.value.threads[u].sp == SpRunning && o.value.mutex == u
  {
  }

  /** Being globally unique ends only with the commit of that transaction. */
  lemma UniqueUntilCommit(st: State, a: Action, st': State)
    requires Inv(st) && Follows(st, a, st') && st.unique && !st'.unique
    ensures a.DoCommit? && a.t < |st.threads| && st.threads[a.t].status == Inevitable
  {
    hide Inv, Poll, Count, Manage, Wake, Abort;
    if a.Step? { UniqueInStep(st, a.t); }
  }

  lemma UniqueInStep(st: State, t: nat)
    requires Enabled(st, Step(t)) && st.unique
    ensures Next(st, Step(t)).Some? ==> Next(st, Step(t)).value.unique
  {
    match st.threads[t].pc
    case AtPoll(task) => assert Poll(st, t, task).Some? ==> Poll(st, t, task).value.unique;
    case Clash(kind, i) => if 0 < i < |st.threads| && i != t { UniqueInClash(st, t, kind, i); }
    case _ =>
  }

  lemma UniqueInClash(st: State, t: nat, kind: Kind, i: nat)
    requires WellFormed(st.mem) && 0 < t < |st.threads| == |st.mem.segs| && 0 < i < |st.threads| && i != t && st.unique
    ensures Manage(st, t, kind, i).Some? ==> Manage(st, t, kind, i).value.unique
  {
  }

  // ----- contention

  ghost predicate Live(th: Thread) { th.status != Idle && th.signal != SigAbort }

  ghost predicate Outranks(a: Thread, b: Thread) {
    a.status == Inevitable || (b.status != Inevitable && a.start < b.start)
  }

  /** Of all transactions that were not told to abort, the one that is inevitable
      or else started first. */
  ghost predicate Highest(st: State, t: nat) {
    && 0 < t < |st.threads| && Live(st.threads[t])
    && forall u :: 0 < u < |st.threads| && u != t && Live(st.threads[u]) ==> Outranks(st.threads[t], st.threads[u])
  }

  lemma InevitableSafe(st: State, t: nat, u: nat)
    requires Inv(st) && 0 < t < |st.threads| && 0 < u < |st.threads| && st.threads[t].status == Inevitable
    ensures st.threads[t].signal != SigAbort && !st.threads[t].killed
    ensures u != t ==> st.threads[u].status != Inevitable
  {
    assert ThreadOk(st, t);
    if u != t { assert PairOk(st, t, u); }
  }

  /** The judgement never goes against the highest transaction. */
  lemma JudgedByRank(st: State, t: nat, i: nat, kind: Kind, top: nat)
    requires Inv(st) && Highest(st, top) && 0 < t < |st.threads| && 0 < i < |st.threads| && i != t
    requires Live(st.threads[t]) && st.threads[i].status != Idle
    ensures var v := Judge(st.threads[t], st.threads[i], kind);
      && (v == Some(AbortSelf) ==> t != top)
      && (v == Some(AbortOther) ==> i != top)
      && (v == Some(Sleep) ==> t != top && Outranks(st.threads[i], st.threads[t]))
  {
    assert PairOk(st, t, i);
  }

  ghost predicate Spared(st: State, t: nat) {
    t < |st.threads| && Live(st.threads[t]) && st.threads[t].pc != Aborting
  }

  /** Contention management, in whatever thread it runs, never aborts the highest
      transaction: only its own program or its commit end it. */
  lemma HighestSpared(st: State, a: Action, st': State, top: nat)
    requires Inv(st) && Follows(st, a, st') && Highest(st, top) && st.threads[top].pc != Aborting
    requires a != UserAbort(top) && a != DoCommit(top)
    ensures Spared(st', top)
  {
    hide Commit, Poll, Count, Wake, Manage, Abort, Coherent, PairOk, WaitOk, GlobalOk;
    assert ThreadOk(st, top) && ThreadOk(st, a.t);
    if a.DoCommit? { SparedInCommit(st, a.t, top); }
    if a.Step? {
      if st.threads[a.t].pc.Clash? {
        SparedInClash(st, a.t, st.threads[a.t].pc.kind, st.threads[a.t].pc.other, top);
      } else {
        SparedInStep(st, a.t, top);
      }
    }
  }

  lemma SparedInClash(st: State, t: nat, kind: Kind, i: nat, top: nat)
    requires Inv(st) && Highest(st, top) && st.threads[top].pc != Aborting
    requires 0 < t < |st.threads| && st.threads[t].pc == Clash(kind, i)
    ensures 0 < i < |st.threads| && i != t
    ensures var o := Manage(st, t, kind, i); o.Some? ==> Spared(o.value, top)
  {
    assert ThreadOk(st, t) && ThreadOk(st, i);
    if !MustAbort(st.threads[t]) {
      JudgedByRank(st, t, i, kind, top);
      if Judge(st.threads[t], st.threads[i], kind) == Some(AbortOther) {
        SparedInAbortOther(st, t, kind, i, top);
      }
    }
  }

  lemma SparedInAbortOther(st: State, t: nat, kind: Kind, i: nat, top: nat)
    requires WellFormed(st.mem) && |st.threads| == |st.mem.segs| && 0 < t < |st.threads| && 0 < i < |st.threads| && i != t
    requires !MustAbort(st.threads[t]) && Judge(st.threads[t], st.threads[i], kind) == Some(AbortOther)
    requires Spared(st, top) && top != i
    ensures var o := Manage(st, t, kind, i); o.Some? ==> Spared(o.value, top)
  {
    var sp := st.threads[i].sp;
    if sp != SpRunning && sp != SpNone {
      var st0 := if sp == SpTransactionDone then WakeWaiters(st) else st;
      assert Spared(st0, top);
      var killed := Kill(st0, i);
      if killed.Some? { SparedInResumed(killed.value, t, kind, top); }
    }
  }

  lemma SparedInResumed(st: State, t: nat, kind: Kind, top: nat)
    requires t < |st.threads| && Spared(st, top)
    ensures var o := Resumed(st, t, kind); o.Some? ==> Spared(o.value, top)
  {}

  lemma SparedInStep(st: State, t: nat, top: nat)
    requires Ordered(st) && Enabled(st, Step(t)) && !st.threads[t].pc.Clash?
    requires Spared(st, top) && top != 0
    ensures var o := Next(st, Step(t)); o.Some? ==> Spared(o.value, top)
  {
    assert ThreadOk(st, t) && ThreadOk(st, top);
    match st.threads[t].pc
    case AtPoll(task) => SparedInPoll(st, t, task, top);
    case Counting(task) => SparedInCount(st, t, task, top);
    case InevLoop =>
    case Aborting =>
    case _ => SparedInWake(st, t, top);
  }

  lemma SparedInWake(st: State, t: nat, top: nat)
    requires Ordered(st) && WellFormed(st.mem) && 0 < t < |st.threads| && Spared(st, top) && top != 0
    requires var pc := st.threads[t].pc; pc.Paused? || pc.WaitingOthers? || pc.WaitingDone? || pc.WaitingAborted?
    ensures st.threads[t].pc.WaitingAborted? ==> 0 < st.threads[t].pc.other < |st.threads| && st.threads[t].pc.other != t
    ensures var o := Wake(st, t); o.Some? ==> Spared(o.value, top)
  {
    assert ThreadOk(st, t);
  }

  lemma SparedInPoll(st: State, t: nat, task: Task, top: nat)
    requires WellFormed(st.mem) && 0 < t < |st.threads| == |st.mem.segs| && Spared(st, top)
    ensures var o := Poll(st, t, task); o.Some? ==> Spared(o.value, top)
  {
    var th := st.threads[t];
    if th.signal == NoSignal {
      SparedInProceed(st, t, task, top);
    } else if th.signal == SigCommitSoon && !st.pause {
      SparedInProceed(Set(st, t, th.(soon := true, signal := NoSignal)), t, task, top);
    }
  }

  lemma SparedInProceed(st: State, t: nat, task: Task, top: nat)
    requires 0 < t < |st.threads| && Spared(st, top)
    ensures var o := Proceed(st, t, task); o.Some? ==> Spared(o.value, top)
  {}

  lemma SparedInCount(st: State, t: nat, task: Task, top: nat)
    requires 0 < t < |st.threads| && Spared(st, top)
    ensures var o := Count(st, t, task); o.Some? ==> Spared(o.value, top)
  {
    hide UnpauseAll, Unsignalled, OthersRunning;
    SparedInUnpause(st, top);
  }

  lemma SparedInUnpause(st: State, top: nat)
    requires Spared(st, top)
    ensures var o := UnpauseAll(st); o.Some? ==> Spared(o.value, top)
  {}

  lemma KilledInUnpause(st: State, t: nat)
    requires t < |st.threads|
    ensures var o := UnpauseAll(st);
      o.Some? ==> o.value.threads[t].killed == st.threads[t].killed && o.value.threads[t].pc == st.threads[t].pc
  {}

  lemma SparedInCommit(st: State, t: nat, top: nat)
    requires WellFormed(st.mem) && 0 < t < |st.threads| == |st.mem.segs| && Spared(st, top) && top != t
    ensures var o := Commit(st, t); o.Some? ==> Spared(o.value, top)
  {
    hide UnpauseAll, Finish, Push;
    var st1 := st.(mem := Push(st.mem, t));
    SparedInFinish(st1, t, top);
    var st2 := Set(st1, t, st.threads[t].(signal := SigPause)).(unique := false);
    SparedInUnpause(st2, top);
    if UnpauseAll(st2).Some? { SparedInFinish(UnpauseAll(st2).value, t, top); }
  }

  lemma SparedInFinish(st: State, t: nat, top: nat)
    requires t < |st.threads| && Spared(st, top) && top != t
    ensures Spared(Finish(st, t), top)
  {}

  /** A transaction whose data was reset by another thread never runs its program
      again: it stays suspended until it aborts. */
  lemma KilledNeverRuns(st: State, a: Action, st': State)
    requires Inv(st) && Follows(st, a, st') && st.threads[a.t].killed
    ensures a == Step(a.t) && a.t < |st'.threads|
    ensures var th := st'.threads[a.t]; th.status == Idle || (th.killed && Suspended(th.pc))
  {
    hide Coherent, PairOk, WaitOk, GlobalOk, UniqueOk, Manage, Commit, Count, Poll, Wake, Abort, Finish;
    assert ThreadOk(st, a.t);
    if a.Step? {
      var pc := st.threads[a.t].pc;
      if pc.Aborting? { AbortEnds(st, a.t); } else if !pc.AtPoll? { KilledWakes(st, a.t); } else { KilledPolls(st, a.t, pc.task); }
    }
  }

  lemma AbortEnds(st: State, t: nat)
    requires WellFormed(st.mem) && 0 < t < |st.threads| == |st.mem.segs|
    ensures var o := Abort(st, t); o.Some? ==> o.value.threads[t].status == Idle
  {
  }

  lemma KilledPolls(st: State, t: nat, task: Task)
    requires WellFormed(st.mem) && 0 < t < |st.threads| == |st.mem.segs| && st.threads[t].killed && MustAbort(st.threads[t])
    ensures var o := Poll(st, t, task); o.Some? ==> o.value.threads[t].killed && Suspended(o.value.threads[t].pc)
  {
  }

  lemma KilledWakes(st: State, t: nat)
    requires WellFormed(st.mem) && 0 < t < |st.threads| == |st.mem.segs| && st.threads[t].killed && MustAbort(st.threads[t])
    requires var pc := st.threads[t].pc; pc.Paused? || pc.WaitingOthers? || pc.WaitingDone?
    ensures var o := Wake(st, t); o.Some? ==> o.value.threads[t].killed && Suspended(o.value.threads[t].pc)
  {
    hide UnpauseAll;
    KilledInUnpause(Set(st.(mutex := t), t, st.threads[t].(sp := SpRunning, pc := Aborting)), t);
  }

  // ----- waiting for other transactions

  /** `s` sleeps until the transaction of `t` is done, and nobody woke it yet. */
  ghost predicate WaitsFor(st: State, s: nat, t: nat) {
    s < |st.threads| && st.threads[s].pc.WaitingDone? && st.threads[s].pc.other == t && !st.threads[s].pc.woken
  }

  ghost predicate WaitChain(st: State, chain: seq<nat>) {
    |chain| > 1 && forall i :: 0 <= i < |chain| - 1 ==> 0 < chain[i] && chain[i] < |st.threads| && WaitsFor(st, chain[i], chain[i + 1])
  }

  lemma {:induction false} ChainGrows(st: State, chain: seq<nat>)
    requires Inv(st) && WaitChain(st, chain)
    ensures var last := chain[|chain| - 1];
      0 < last < |st.threads| && (st.threads[last].pc.WaitingDone? ==> st.threads[last].stamp > st.threads[chain[0]].stamp)
    decreases |chain|
  {
    var n := |chain|;
    assert WaitsFor(st, chain[n - 2], chain[n - 1]);
    assert WaitOk(st, chain[n - 2]);
    if n > 2 { ChainGrows(st, chain[..n - 1]); }
  }

  /** Transactions never wait for each other in a circle. */
  lemma NoWaitCycle(st: State, chain: seq<nat>)
    requires Inv(st) && WaitChain(st, chain)
    ensures chain[0] != chain[|chain| - 1]
  {
    ChainGrows(st, chain);
    assert WaitsFor(st, chain[0], chain[1]);
  }

  /** No wake-up is lost: what a sleeper waits for is still going on, and when
      it ends the sleeper is woken. */
  lemma SleeperWillBeWoken(st: State, a: Action, st': State, s: nat, t: nat)
    requires Inv(st) && Follows(st, a, st') && 0 < s && WaitsFor(st, s, t)
    ensures 0 < t < |st.threads| == |st'.threads| && st.threads[t].status != Idle && st.threads[t].signalWhenDone
    ensures st'.threads[t].status == Idle ==> !WaitsFor(st', s, t)
  {
    assert WaitOk(st, s);
    StepKeepsInv(st, a, st');
    assert WaitsFor(st', s, t) ==> s < |st'.threads| && WaitOk(st', s);
    SameThreads(st, a, st');
  }

  lemma SameThreads(st: State, a: Action, st': State)
    requires Follows(st, a, st')
    ensures |st'.threads| == |st.threads|
  {}
}
