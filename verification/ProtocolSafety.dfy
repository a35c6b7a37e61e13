/** What every reachable state of the protocol satisfies, and that each step
    keeps it. */
module ProtocolSafety {
  import opened Wrappers
  import opened History
  import opened Views
  import opened Protocol

  predicate Locked(pc: Pc) {
    pc.AtPoll? || pc.Counting? || pc.Stopped? || pc.InevLoop? || pc.Clash? || pc.Aborting?
  }

  function SafePointOf(pc: Pc): SafePoint {
    match pc
    case Outside => SpNone
    case Paused(_) => SpRequestRemoved
    case WaitingOthers(_) => SpAtSafePoint
    case WaitingDone(_, _, _) => SpTransactionDone
    case _ => SpRunning
  }

  /** Between asking everybody to pause and taking the request back. */
  predicate Pausing(pc: Pc) { pc.Counting? || pc.WaitingOthers? }

  /** The transaction has not run any of the program yet. */
  predicate Unstarted(pc: Pc) { pc in {Outside, Fresh, AtPoll(Starting), Paused(Starting)} }

  /** Suspended, or just woken up and about to look at its signal. */
  predicate Suspended(pc: Pc) { pc.Paused? || pc.WaitingOthers? || pc.WaitingDone? || pc.AtPoll? || pc.Aborting? }

  /** Everybody else is stopped, and stays so until the mutex is given back. */
  predicate WorldStopped(pc: Pc) { pc.Stopped? || (pc.Clash? && pc.kind == WriteRead) }

  ghost predicate PcOk(st: State, t: nat)
    requires t < |st.threads|
  {
    var th := st.threads[t];
    match th.pc
    case AtPoll(task) => task == GoingUnique ==> th.status == Inevitable
    case Paused(task) => task == GoingUnique ==> th.status == Inevitable
    case Counting(task) =>
      task in {Committing, Collecting, GoingUnique} && (task == GoingUnique ==> th.status == Inevitable) && th.signal == SigPause
    case WaitingOthers(task) =>
      task in {Committing, Collecting, GoingUnique} && (task == GoingUnique ==> th.status == Inevitable) && th.signal in {SigPause, SigAbort}
    case Stopped(task) => task in {Committing, Collecting} && th.signal == NoSignal
    case InevLoop => th.status == Regular && th.signal != SigAbort
    case Clash(kind, i) =>
      && 0 < i < |st.threads| && i != t && st.threads[i].status != Idle
      && (kind == WriteRead ==> th.signal == NoSignal)
      && (kind == InevitableClash ==> th.status == Regular && st.threads[i].status == Inevitable && th.signal != SigAbort)
    case WaitingDone(kind, i, _) => 0 < i < |st.threads| && i != t && kind != WriteWrite && th.status == Regular
    case WaitingAborted(i) => 0 < i < |st.threads| && i != t
    case Aborting => th.status == Regular
    case _ => true
  }

  ghost predicate SignalOk(st: State, t: nat)
    requires t < |st.threads|
  {
    var th := st.threads[t];
    && (th.signal == SigAbort ==> th.status == Regular)
    && (th.signal == SigAbort && th.sp != SpRunning ==> th.killed)
    && (th.killed ==> th.signal == SigAbort && Suspended(th.pc))
    && (st.pause ==> th.signal != NoSignal || (st.unique && th.status == Inevitable))
    && (!st.pause ==> th.signal != SigPause)
  }

  /** While a transaction is globally unique, no other runs the program. */
  ghost predicate UniqueOk(st: State, t: nat)
    requires t < |st.threads|
  {
    var th := st.threads[t];
    st.unique ==>
      if th.status == Inevitable
      then th.signal == NoSignal && (th.pc.User? || th.pc.AtPoll? || th.pc.Stopped? || (th.pc.Clash? && th.pc.kind != InevitableClash))
      else th.pc.Outside? || th.pc.AtPoll? || th.pc.Paused? || th.pc.WaitingDone? || th.pc.InevLoop? || th.pc.Aborting?
           || (th.pc.Clash? && th.pc.kind == InevitableClash)
  }

  ghost predicate ThreadOk(st: State, t: nat)
    requires t < |st.threads| == |st.mem.segs|
  {
    var th, seg := st.threads[t], st.mem.segs[t];
    && (st.mutex == t <==> Locked(th.pc))
    && th.sp == SafePointOf(th.pc)
    && (th.status == Idle <==> th.pc == Outside)
    && (Unstarted(th.pc) || th.killed ==> th.status != Inevitable && seg.log == [] && seg.modified == [])
    && (Pausing(th.pc) ==> st.pauser == t && !st.unique)
    && th.start < st.clock && th.stamp < st.stamps
    && PcOk(st, t) && SignalOk(st, t) && UniqueOk(st, t)
  }

  ghost predicate PairOk(st: State, t: nat, u: nat)
    requires t < |st.threads| && u < |st.threads|
  {
    var a, b := st.threads[t], st.threads[u];
    && !(a.status == Inevitable && b.status == Inevitable)
    && (a.status != Idle && b.status != Idle ==> a.start != b.start)
    && (WorldStopped(a.pc) ==> b.sp != SpRunning)
  }

  /** A transaction that still has to be woken up waits for one that is still
      running and will do it; and if that one waits too, it began later. */
  ghost predicate WaitOk(st: State, t: nat)
    requires t < |st.threads|
  {
    var pc := st.threads[t].pc;
    pc.WaitingDone? && !pc.woken ==>
      && 0 < pc.other < |st.threads|
      && st.threads[pc.other].status != Idle && st.threads[pc.other].signalWhenDone
      && (st.threads[pc.other].pc.WaitingDone? ==> st.threads[pc.other].stamp > st.threads[t].stamp)
  }

  ghost predicate GlobalOk(st: State) {
    && st.mutex < |st.threads| && st.pauser < |st.threads|
    && (st.pause <==> st.pauser != 0)
    && (st.unique ==> st.pause && st.threads[st.pauser].status == Inevitable)
    && (st.pause && !st.unique ==> Pausing(st.threads[st.pauser].pc))
  }

  /** The part of the invariant that is about threads and signals. */
  ghost predicate Ordered(st: State) {
    && |st.threads| == |st.mem.segs|
    && GlobalOk(st)
    && (forall t :: 0 < t < |st.threads| ==> ThreadOk(st, t) && WaitOk(st, t))
    && (forall t, u :: 0 < t < |st.threads| && 0 < u < |st.threads| && t != u ==> PairOk(st, t, u))
  }

  ghost predicate Inv(st: State) { Ordered(st) && Coherent(st.mem) }

  /** What a thread may change without the others noticing. */
  ghost predicate Quietly(st: State, st': State, t: nat) {
    && 0 < t < |st.threads| == |st'.threads| && st'.mem == st.mem
    && (forall u :: 0 <= u < |st.threads| && u != t ==> st'.threads[u] == st.threads[u])
    && (st'.mutex == st.mutex || (st.mutex in {0, t} && st'.mutex in {0, t}))
    && st'.pause == st.pause && st'.unique == st.unique && st'.pauser == st.pauser
    && st'.clock >= st.clock && st'.stamps >= st.stamps
    && var th, th' := st.threads[t], st'.threads[t];
       && (th.signalWhenDone ==> th'.signalWhenDone)
       && (if th.status == Idle && th'.status != Idle then th'.status == Regular && th'.start == st.clock < st'.clock
           else th'.start == th.start && (th'.status == th.status || (th.status == Regular && th'.status == Inevitable)))
       && (th'.status == Inevitable ==> th.status == Inevitable || forall u :: 0 < u < |st.threads| ==> st.threads[u].status != Inevitable)
       && (th'.sp == SpRunning ==> th.sp == SpRunning || st.mutex in {0, t})
       && (WorldStopped(th'.pc) ==> WorldStopped(th.pc) || forall u :: 0 < u < |st.threads| && u != t ==> st.threads[u].sp != SpRunning)
       && (th'.pc.WaitingDone? ==> (th.pc.WaitingDone? && th'.stamp == th.stamp) || th'.stamp >= st.stamps)
       && (st.pauser == t ==> (Pausing(th.pc) ==> Pausing(th'.pc)) && (th.status == Inevitable ==> th'.status == Inevitable))
  }

  lemma OtherThread(st: State, st': State, t: nat, u: nat)
    requires Ordered(st) && Quietly(st, st', t) && 0 < u < |st.threads| && u != t
    ensures ThreadOk(st', u)
  {
    assert ThreadOk(st, t) && ThreadOk(st, u) && PairOk(st, t, u);
  }

  lemma OtherWait(st: State, st': State, t: nat, u: nat)
    requires Ordered(st) && Quietly(st, st', t) && 0 < u < |st.threads| && u != t
    ensures WaitOk(st', u)
  {
    assert ThreadOk(st, t) && ThreadOk(st, u) && WaitOk(st, u);
  }

  lemma OtherPair(st: State, st': State, t: nat, u: nat, v: nat)
    requires Ordered(st) && Quietly(st, st', t) && 0 < u < |st.threads| && 0 < v < |st.threads| && u != v
    ensures PairOk(st', u, v)
  {
    assert PairOk(st, u, v) && ThreadOk(st, u) && ThreadOk(st, v);
  }

  /** If one thread moves, only what concerns that thread has to be looked at. */
  lemma OneThread(st: State, st': State, t: nat)
    requires Ordered(st) && Quietly(st, st', t) && ThreadOk(st', t) && WaitOk(st', t)
    ensures Ordered(st')
  {
    forall u | 0 < u < |st.threads| ensures ThreadOk(st', u) && WaitOk(st', u) {
      if u != t { OtherThread(st, st', t, u); OtherWait(st, st', t, u); }
    }
    forall u, v | 0 < u < |st.threads| && 0 < v < |st.threads| && u != v ensures PairOk(st', u, v) { OtherPair(st, st', t, u, v); }
    SameGlobals(st, st', t);
  }

  lemma SameGlobals(st: State, st': State, t: nat)
    requires Ordered(st) && Quietly(st, st', t)
    ensures GlobalOk(st')
  {
    assert ThreadOk(st, t);
  }

  lemma StartOrdered(st: State, a: Action)
    requires Ordered(st) && Enabled(st, a) && a.Start?
    ensures Next(st, a).Some? && Ordered(Next(st, a).value)
  {
    assert ThreadOk(st, a.t);
    var st' := Next(st, a).value;
    OneThread(st, st', a.t);
  }

  /** Work on one segment's memory does not matter here, unless that
      transaction has not started or was killed. */
  lemma MemoryOrdered(st: State, t: nat, m: Memory)
    requires Ordered(st) && 0 < t < |st.threads|
    requires |m.segs| == |st.mem.segs|
    requires forall u :: 0 < u < |m.segs| && u != t ==> m.segs[u].log == st.mem.segs[u].log && m.segs[u].modified == st.mem.segs[u].modified
    requires (Unstarted(st.threads[t].pc) || st.threads[t].killed) ==> m.segs[t].log == [] && m.segs[t].modified == []
    ensures Ordered(st.(mem := m))
  {
    var st' := st.(mem := m);
    forall u | 0 < u < |st.threads| ensures ThreadOk(st', u) && WaitOk(st', u) { assert ThreadOk(st, u) && WaitOk(st, u); }
    forall u, v | 0 < u < |st.threads| && 0 < v < |st.threads| && u != v ensures PairOk(st', u, v) {
      assert PairOk(st, u, v);
    }
  }

  lemma BumpOrdered(st: State, t: nat)
    requires Ordered(st) && 0 < t < |st.threads| && st.threads[t].pc == Fresh
    ensures Ordered(Set(st, t, st.threads[t].(pc := User)))
  {
    var st' := Set(st, t, st.threads[t].(pc := User));
    assert ThreadOk(st, t);
    OneThread(st, st', t);
  }

  lemma ContendOrdered(st: State, a: Action)
    requires Ordered(st) && Enabled(st, a) && a.Contend?
    requires st.mem.locks[a.o] < |st.threads| && st.threads[st.mem.locks[a.o]].status != Idle
    ensures Next(st, a).Some? && Ordered(Next(st, a).value)
  {
    assert ThreadOk(st, a.t);
    var m := MarkRead(st.mem, a.t, a.o);
    MemoryOrdered(st, a.t, m);
    OneThread(st.(mem := m), Next(st, a).value, a.t);
  }

  lemma CallOrdered(st: State, a: Action)
    requires Ordered(st) && Enabled(st, a) && a.Call?
    ensures Next(st, a).Some? && Ordered(Next(st, a).value)
  {
    assert ThreadOk(st, a.t);
    var st' := Next(st, a).value;
    OneThread(st, st', a.t);
  }

  lemma FoundOrdered(st: State, a: Action)
    requires Ordered(st) && Enabled(st, a) && (a.Found? || a.Leave?)
    ensures Next(st, a).Some? && Ordered(Next(st, a).value)
  {
    assert ThreadOk(st, a.t);
    var st' := Next(st, a).value;
    OneThread(st, st', a.t);
  }

  lemma CollectOrdered(st: State, a: Action)
    requires Ordered(st) && Enabled(st, a) && a.DoCollect?
    ensures Next(st, a).Some? && Ordered(Next(st, a).value)
  {
    assert ThreadOk(st, a.t);
    MemoryOrdered(st, a.t, Reshare(st.mem));
  }

  // ----- safe points

  lemma SignalsPending(st: State)
    requires Ordered(st) && st.pause
    ensures forall i :: 0 < i < |st.threads| && st.threads[i].signal == NoSignal ==> st.unique && st.threads[i].status == Inevitable
  {
    forall i | 0 < i < |st.threads| && st.threads[i].signal == NoSignal
      ensures st.unique && st.threads[i].status == Inevitable
    {
      assert ThreadOk(st, i);
    }
  }

  /** A thread that holds the mutex on behalf of the globally unique transaction
      finds everybody else stopped. */
  lemma UniqueAlone(st: State, t: nat)
    requires Ordered(st) && st.unique && 0 < t < |st.threads|
    requires st.threads[t].status == Inevitable && st.mutex == t
    ensures !OthersRunning(st, t)
  {
    forall i | 0 < i < |st.threads| && i != t ensures st.threads[i].sp != SpRunning {
      assert ThreadOk(st, i) && PairOk(st, i, t);
    }
  }

  lemma PauseOrdered(st: State, t: nat, task: Task)
    requires Ordered(st) && 0 < t < |st.threads|
    requires st.threads[t].pc == AtPoll(task) && st.threads[t].signal == NoSignal && !st.unique
    requires task in {Committing, Collecting, GoingUnique}
    ensures var o := PauseAll(Set(st, t, st.threads[t].(pc := Counting(task))), t); o.Some? && Ordered(o.value)
  {
    assert ThreadOk(st, t);
    var st' := PauseAll(Set(st, t, st.threads[t].(pc := Counting(task))), t).value;
    forall u | 0 < u < |st.threads| ensures ThreadOk(st', u) && WaitOk(st', u) { PausedThread(st, t, task, st', u); }
    forall u, v | 0 < u < |st.threads| && 0 < v < |st.threads| && u != v ensures PairOk(st', u, v) {
      assert PairOk(st, u, v);
    }
  }

  lemma PausedThread(st: State, t: nat, task: Task, st': State, u: nat)
    requires Ordered(st) && 0 < t < |st.threads| && 0 < u < |st.threads|
    requires st.threads[t].pc == AtPoll(task) && st.threads[t].signal == NoSignal && !st.unique
    requires task in {Committing, Collecting, GoingUnique}
    requires PauseAll(Set(st, t, st.threads[t].(pc := Counting(task))), t) == Some(st')
    ensures ThreadOk(st', u) && WaitOk(st', u)
  {
    assert ThreadOk(st, t) && ThreadOk(st, u) && WaitOk(st, u);
  }

  lemma ProceedSimply(st: State, t: nat, task: Task)
    requires Ordered(st) && 0 < t < |st.threads|
    requires st.threads[t].pc == AtPoll(task) && st.threads[t].signal == NoSignal
    requires task in {Starting, Polling, GoingInevitable}
    ensures var o := Proceed(st, t, task); o.Some? && Ordered(o.value)
  {
    assert ThreadOk(st, t);
    var st' := Proceed(st, t, task).value;
    OneThread(st, st', t);
  }

  lemma ProceedUnique(st: State, t: nat, task: Task)
    requires Ordered(st) && 0 < t < |st.threads|
    requires st.threads[t].pc == AtPoll(task) && st.threads[t].signal == NoSignal && st.unique
    requires task in {Committing, Collecting, GoingUnique}
    ensures var o := Proceed(st, t, task); o.Some? && Ordered(o.value)
  {
    assert ThreadOk(st, t);
    UniqueAlone(st, t);
    var st' := Proceed(st, t, task).value;
    OneThread(st, st', t);
  }

  lemma ProceedOrdered(st: State, t: nat, task: Task)
    requires Ordered(st) && 0 < t < |st.threads|
    requires st.threads[t].pc == AtPoll(task) && st.threads[t].signal == NoSignal
    ensures var o := Proceed(st, t, task); o.Some? && Ordered(o.value)
  {
    if task in {Starting, Polling, GoingInevitable} {
      ProceedSimply(st, t, task);
    } else if st.unique {
      ProceedUnique(st, t, task);
    } else {
      PauseOrdered(st, t, task);
    }
  }

  lemma PollSoonOrdered(st: State, t: nat, task: Task)
    requires Ordered(st) && 0 < t < |st.threads|
    requires st.threads[t].pc == AtPoll(task) && st.threads[t].signal == SigCommitSoon && !st.pause
    ensures Ordered(Set(st, t, st.threads[t].(soon := true, signal := NoSignal)))
  {
    assert ThreadOk(st, t);
    var st' := Set(st, t, st.threads[t].(soon := true, signal := NoSignal));
    OneThread(st, st', t);
  }

  lemma PollPausedOrdered(st: State, t: nat, task: Task, soon: bool)
    requires Ordered(st) && 0 < t < |st.threads|
    requires st.threads[t].pc == AtPoll(task) && st.pause && st.threads[t].signal in {SigPause, SigCommitSoon}
    ensures Ordered(Set(st, t, st.threads[t].(soon := soon, signal := SigPause, sp := SpRequestRemoved, pc := Paused(task))).(mutex := 0))
  {
    assert ThreadOk(st, t);
    var st' := Set(st, t, st.threads[t].(soon := soon, signal := SigPause, sp := SpRequestRemoved, pc := Paused(task))).(mutex := 0);
    OneThread(st, st', t);
  }

  lemma PollOrdered(st: State, t: nat, task: Task)
    requires Ordered(st) && 0 < t < |st.threads| && WellFormed(st.mem) && st.threads[t].pc == AtPoll(task)
    ensures var o := Poll(st, t, task); o.Some? && Ordered(o.value)
  {
    assert ThreadOk(st, t);
    var signal := st.threads[t].signal;
    if signal == SigAbort {
      AbortingOrdered(st, t);
    } else if signal == NoSignal {
      ProceedOrdered(st, t, task);
    } else if signal == SigCommitSoon && !st.pause {
      PollSoonOrdered(st, t, task);
      ProceedOrdered(Set(st, t, st.threads[t].(soon := true, signal := NoSignal)), t, task);
    } else {
      PollPausedOrdered(st, t, task, signal == SigCommitSoon || st.threads[t].soon);
    }
  }

  lemma AbortingOrdered(st: State, t: nat)
    requires Ordered(st) && 0 < t < |st.threads|
    requires st.mutex == t && st.threads[t].status == Regular && !Pausing(st.threads[t].pc)
    ensures Ordered(Set(st, t, st.threads[t].(pc := Aborting)))
  {
    assert ThreadOk(st, t);
    var st' := Set(st, t, st.threads[t].(pc := Aborting));
    OneThread(st, st', t);
  }

  lemma UserAbortOrdered(st: State, t: nat)
    requires Ordered(st) && 0 < t < |st.threads| && st.threads[t].pc == User && st.mutex == 0 && st.threads[t].status == Regular
    ensures Ordered(Set(st, t, st.threads[t].(pc := Aborting)).(mutex := t))
  {
    assert ThreadOk(st, t);
    var st' := Set(st, t, st.threads[t].(pc := Aborting)).(mutex := t);
    OneThread(st, st', t);
  }

  lemma CountWaitOrdered(st: State, t: nat, task: Task)
    requires Ordered(st) && 0 < t < |st.threads|
    requires st.threads[t].pc == Counting(task) && OthersRunning(st, t)
    ensures var o := Count(st, t, task); o.Some? && Ordered(o.value)
  {
    assert ThreadOk(st, t);
    SignalsPending(st);
    var st' := Count(st, t, task).value;
    OneThread(st, st', t);
  }

  lemma CountUniqueOrdered(st: State, t: nat)
    requires Ordered(st) && 0 < t < |st.threads|
    requires st.threads[t].pc == Counting(GoingUnique) && !OthersRunning(st, t)
    ensures var o := Count(st, t, GoingUnique); o.Some? && Ordered(o.value)
  {
    assert ThreadOk(st, t);
    SignalsPending(st);
    var st' := Count(st, t, GoingUnique).value;
    forall u | 0 < u < |st.threads| ensures ThreadOk(st', u) && WaitOk(st', u) { assert ThreadOk(st, u) && WaitOk(st, u) && (u != t ==> PairOk(st, t, u)); }
    forall u, v | 0 < u < |st.threads| && 0 < v < |st.threads| && u != v ensures PairOk(st', u, v) {
      assert PairOk(st, u, v);
    }
  }

  lemma CountStopOrdered(st: State, t: nat, task: Task)
    requires Ordered(st) && 0 < t < |st.threads|
    requires st.threads[t].pc == Counting(task) && task != GoingUnique && !OthersRunning(st, t)
    ensures var o := Count(st, t, task); o.Some? && Ordered(o.value)
  {
    assert ThreadOk(st, t);
    SignalsPending(st);
    var st' := Count(st, t, task).value;
    forall u | 0 < u < |st.threads| ensures ThreadOk(st', u) && WaitOk(st', u) { assert ThreadOk(st, u) && WaitOk(st, u); }
    forall u, v | 0 < u < |st.threads| && 0 < v < |st.threads| && u != v ensures PairOk(st', u, v) {
      assert PairOk(st, u, v);
    }
  }

  lemma InevClashOrdered(st: State, t: nat, i: nat)
    requires Ordered(st) && 0 < t < |st.threads|
    requires st.threads[t].pc == InevLoop && 0 < i < |st.threads| && st.threads[i].status == Inevitable
    ensures Ordered(Set(st, t, st.threads[t].(pc := Clash(InevitableClash, i))))
  {
    assert ThreadOk(st, t);
    var st' := Set(st, t, st.threads[t].(pc := Clash(InevitableClash, i)));
    OneThread(st, st', t);
  }

  lemma InevAloneOrdered(st: State, t: nat)
    requires Ordered(st) && 0 < t < |st.threads|
    requires st.threads[t].pc == InevLoop && forall i :: 0 < i < |st.threads| ==> st.threads[i].status != Inevitable
    ensures Ordered(Set(st, t, st.threads[t].(status := Inevitable, pc := User)).(mutex := 0))
  {
    assert ThreadOk(st, t);
    var st' := Set(st, t, st.threads[t].(status := Inevitable, pc := User)).(mutex := 0);
    OneThread(st, st', t);
  }

  // ----- the end of a transaction

  lemma WakeOrdered(st: State, t: nat)
    requires Ordered(st) && 0 < t < |st.threads|
    ensures Ordered(WakeWaiters(st))
  {
    assert ThreadOk(st, t);
    var st' := WakeWaiters(st);
    forall u | 0 < u < |st.threads| ensures ThreadOk(st', u) && WaitOk(st', u) { assert ThreadOk(st, u) && WaitOk(st, u); }
    forall u, v | 0 < u < |st.threads| && 0 < v < |st.threads| && u != v ensures PairOk(st', u, v) {
      assert PairOk(st, u, v);
    }
  }

  lemma OutOrdered(st: State, t: nat)
    requires Ordered(st) && 0 < t < |st.threads|
    requires st.mutex == t && st.threads[t].signal != SigAbort && !Pausing(st.threads[t].pc)
    requires st.unique ==> st.threads[t].status != Inevitable
    requires st.mem.segs[t].log == [] && st.mem.segs[t].modified == []
    requires forall u :: 0 < u < |st.threads| && st.threads[u].pc.WaitingDone? && st.threads[u].pc.other == t ==> st.threads[u].pc.woken
    ensures Ordered(Set(st, t, st.threads[t].(status := Idle, sp := SpNone, signalWhenDone := false, killed := false, pc := Outside)).(mutex := 0))
  {
    assert ThreadOk(st, t);
    var st' := Set(st, t, st.threads[t].(status := Idle, sp := SpNone, signalWhenDone := false, killed := false, pc := Outside)).(mutex := 0);
    forall u | 0 < u < |st.threads| ensures ThreadOk(st', u) && WaitOk(st', u) { assert ThreadOk(st, u) && WaitOk(st, u); }
    forall u, v | 0 < u < |st.threads| && 0 < v < |st.threads| && u != v ensures PairOk(st', u, v) {
      assert PairOk(st, u, v);
    }
  }

  lemma FinishOrdered(st: State, t: nat)
    requires Ordered(st) && 0 < t < |st.threads|
    requires st.mutex == t && st.threads[t].signal != SigAbort && !Pausing(st.threads[t].pc)
    requires st.unique ==> st.threads[t].status != Inevitable
    requires st.mem.segs[t].log == [] && st.mem.segs[t].modified == []
    ensures Ordered(Finish(st, t))
  {
    assert ThreadOk(st, t);
    if st.threads[t].signalWhenDone {
      WakeOrdered(st, t);
      OutOrdered(WakeWaiters(st), t);
    } else {
      forall u | 0 < u < |st.threads| && st.threads[u].pc.WaitingDone? && st.threads[u].pc.other == t
        ensures st.threads[u].pc.woken
      {
        assert WaitOk(st, u);
      }
      OutOrdered(st, t);
    }
  }

  lemma UnmarkOrdered(st: State, t: nat)
    requires Ordered(st) && 0 < t < |st.threads|
    requires st.threads[t].pc == Aborting && st.threads[t].signal == SigAbort
    ensures Ordered(Set(st, t, st.threads[t].(signal := if st.pause then SigPause else NoSignal, killed := false)))
  {
    assert ThreadOk(st, t);
    var st' := Set(st, t, st.threads[t].(signal := if st.pause then SigPause else NoSignal, killed := false));
    OneThread(st, st', t);
  }

  lemma AbortOrdered(st: State, t: nat)
    requires Ordered(st) && 0 < t < |st.threads| && WellFormed(st.mem) && st.threads[t].pc == Aborting
    ensures var o := Abort(st, t); o.Some? && Ordered(o.value)
  {
    assert ThreadOk(st, t);
    var th := st.threads[t];
    var st1 := st;
    if th.signal == SigAbort {
      UnmarkOrdered(st, t);
      st1 := Set(st, t, th.(signal := if st.pause then SigPause else NoSignal, killed := false));
    } else {
      assert Set(st, t, th) == st;
    }
    MemoryOrdered(st1, t, Reset(st.mem, t));
    FinishOrdered(st1.(mem := Reset(st.mem, t)), t);
  }

  lemma ReleaseOrdered(st: State, t: nat)
    requires Ordered(st) && 0 < t < |st.threads|
    requires st.threads[t].pc == Stopped(Committing) && st.unique && st.threads[t].status == Inevitable
    ensures var o := UnpauseAll(Set(st, t, st.threads[t].(signal := SigPause)).(unique := false)); o.Some? && Ordered(o.value)
  {
    assert ThreadOk(st, t);
    SignalsPending(st);
    forall i | 0 < i < |st.threads| && i != t ensures st.threads[i].signal != NoSignal {
      assert PairOk(st, i, t);
    }
    var st' := UnpauseAll(Set(st, t, st.threads[t].(signal := SigPause)).(unique := false)).value;
    forall u | 0 < u < |st.threads| ensures ThreadOk(st', u) && WaitOk(st', u) { assert ThreadOk(st, u) && WaitOk(st, u); }
    forall u, v | 0 < u < |st.threads| && 0 < v < |st.threads| && u != v ensures PairOk(st', u, v) {
      assert PairOk(st, u, v);
    }
  }

  lemma CommitOrdered(st: State, t: nat)
    requires Ordered(st) && 0 < t < |st.threads| && WellFormed(st.mem) && st.threads[t].pc == Stopped(Committing)
    ensures var o := Commit(st, t); o.Some? && Ordered(o.value)
  {
    assert ThreadOk(st, t);
    var st1 := st.(mem := Push(st.mem, t));
    MemoryOrdered(st, t, Push(st.mem, t));
    if st.threads[t].status == Inevitable && st.unique {
      ReleaseOrdered(st1, t);
      FinishOrdered(UnpauseAll(Set(st1, t, st.threads[t].(signal := SigPause)).(unique := false)).value, t);
    } else {
      FinishOrdered(st1, t);
    }
  }

  // ----- contention

  /** A change of one thread's signal concerns nobody else. */
  lemma SignalOrdered(st: State, i: nat, th: Thread)
    requires Ordered(st) && 0 < i < |st.threads|
    requires th == st.threads[i].(signal := th.signal, soon := th.soon, killed := th.killed)
    requires ThreadOk(Set(st, i, th), i)
    requires th.signal == SigAbort ==> !Locked(th.pc)
    ensures Ordered(Set(st, i, th))
  {
    assert ThreadOk(st, i) && WaitOk(st, i);
    var st' := Set(st, i, th);
    OneThread(st, st', i);
  }

  lemma SoonOrdered(st: State, t: nat, i: nat)
    requires Ordered(st) && 0 < t < |st.threads|
    requires st.mutex == t && 0 < i < |st.threads| && i != t
    ensures Ordered(CommitSoon(st, i))
  {
    assert ThreadOk(st, t) && ThreadOk(st, i) && WaitOk(st, i);
    var st' := CommitSoon(st, i);
    OneThread(st, st', i);
  }

  lemma SleepOrdered(st: State, t: nat, kind: Kind, i: nat)
    requires Ordered(st) && 0 < t < |st.threads|
    requires st.threads[t].pc == Clash(kind, i) && kind != WriteWrite && 0 < i < |st.threads|
    requires st.threads[t].status == Regular && st.threads[t].signal != SigAbort
    requires !st.threads[i].pc.WaitingDone? && st.threads[i].signalWhenDone
    ensures Ordered(Set(st, t, st.threads[t].(sp := SpTransactionDone, pc := WaitingDone(kind, i, false), stamp := st.stamps)).(mutex := 0, stamps := st.stamps + 1))
  {
    assert ThreadOk(st, t);
    var st' := Set(st, t, st.threads[t].(sp := SpTransactionDone, pc := WaitingDone(kind, i, false), stamp := st.stamps)).(mutex := 0, stamps := st.stamps + 1);
    OneThread(st, st', t);
  }

  lemma PromiseOrdered(st: State, t: nat, i: nat)
    requires Ordered(st) && 0 < t < |st.threads|
    requires 0 < i < |st.threads|
    ensures Ordered(Set(st, i, st.threads[i].(signalWhenDone := true)))
  {
    assert ThreadOk(st, t) && ThreadOk(st, i) && WaitOk(st, i);
    var st' := Set(st, i, st.threads[i].(signalWhenDone := true));
    OneThread(st, st', i);
  }

  lemma DoomRunningOrdered(st: State, t: nat, i: nat)
    requires Ordered(st) && 0 < t < |st.threads|
    requires st.mutex == t
    requires 0 < i < |st.threads| && i != t && st.threads[i].status == Regular && st.threads[i].sp == SpRunning
    ensures Ordered(Set(st, i, st.threads[i].(signal := SigAbort)))
  {
    assert ThreadOk(st, i);
    SignalOrdered(st, i, st.threads[i].(signal := SigAbort));
  }

  lemma AwaitAbortOrdered(st: State, t: nat, i: nat)
    requires Ordered(st) && 0 < t < |st.threads|
    requires st.threads[t].pc.Clash? && !WorldStopped(st.threads[t].pc) && 0 < i < |st.threads| && i != t && !st.unique
    ensures Ordered(Set(st, t, st.threads[t].(pc := WaitingAborted(i))).(mutex := 0))
  {
    assert ThreadOk(st, t);
    var st' := Set(st, t, st.threads[t].(pc := WaitingAborted(i))).(mutex := 0);
    OneThread(st, st', t);
  }

  lemma DoomStoppedOrdered(st: State, t: nat, i: nat)
    requires Ordered(st) && 0 < t < |st.threads|
    requires st.mutex == t
    requires 0 < i < |st.threads| && i != t && st.threads[i].status == Regular && st.threads[i].sp != SpRunning
    requires st.mem.segs[i].log == [] && st.mem.segs[i].modified == []
    ensures Ordered(Set(st, i, st.threads[i].(signal := SigAbort, killed := true)))
  {
    assert ThreadOk(st, i);
    SignalOrdered(st, i, st.threads[i].(signal := SigAbort, killed := true));
  }

  lemma RetryOrdered(st: State, t: nat)
    requires Ordered(st) && 0 < t < |st.threads|
    requires st.threads[t].pc.Clash? && st.threads[t].pc.kind == WriteWrite
    ensures var o := Resumed(st, t, WriteWrite); o.Some? && Ordered(o.value)
  {
    assert ThreadOk(st, t);
    var st' := Resumed(st, t, WriteWrite).value;
    OneThread(st, st', t);
  }

  lemma RecheckOrdered(st: State, t: nat)
    requires Ordered(st) && 0 < t < |st.threads|
    requires st.threads[t].pc.Clash? && st.threads[t].pc.kind == WriteRead
    ensures var o := Resumed(st, t, WriteRead); o.Some? && Ordered(o.value)
  {
    assert ThreadOk(st, t);
    var st' := Resumed(st, t, WriteRead).value;
    OneThread(st, st', t);
  }

  // ----- waking up

  lemma WakeToOrdered(st: State, t: nat, pc: Pc)
    requires Ordered(st) && 0 < t < |st.threads|
    requires st.mutex == 0 && Locked(pc) && SafePointOf(st.threads[t].pc) != SpNone && !Pausing(st.threads[t].pc)
    requires pc.AtPoll? || pc.InevLoop? || pc.Aborting?
    requires PcOk(Set(st, t, st.threads[t].(pc := pc)), t)
    requires st.threads[t].pc.Paused? || st.threads[t].pc.WaitingDone? || (st.threads[t].pc.WaitingAborted? && pc == Aborting)
    requires Unstarted(pc) ==> Unstarted(st.threads[t].pc)
    requires st.threads[t].killed ==> Suspended(pc)
    ensures Ordered(Set(st.(mutex := t), t, st.threads[t].(sp := SpRunning, pc := pc)))
  {
    assert ThreadOk(st, t);
    var st' := Set(st.(mutex := t), t, st.threads[t].(sp := SpRunning, pc := pc));
    OneThread(st, st', t);
  }

  lemma WakeToCountOrdered(st: State, t: nat)
    requires Ordered(st) && 0 < t < |st.threads|
    requires st.mutex == 0 && st.threads[t].pc.WaitingOthers? && st.threads[t].signal != SigAbort
    ensures Ordered(Set(st.(mutex := t), t, st.threads[t].(sp := SpRunning, pc := Counting(st.threads[t].pc.task))))
  {
    assert ThreadOk(st, t);
    var st' := Set(st.(mutex := t), t, st.threads[t].(sp := SpRunning, pc := Counting(st.threads[t].pc.task)));
    OneThread(st, st', t);
  }

  lemma WakeToUnpauseOrdered(st: State, t: nat)
    requires Ordered(st) && 0 < t < |st.threads|
    requires st.mutex == 0 && st.threads[t].pc.WaitingOthers? && st.threads[t].signal == SigAbort
    ensures var o := UnpauseAll(Set(st.(mutex := t), t, st.threads[t].(sp := SpRunning, pc := Aborting))); o.Some? && Ordered(o.value)
  {
    assert ThreadOk(st, t);
    SignalsPending(st);
    var st' := UnpauseAll(Set(st.(mutex := t), t, st.threads[t].(sp := SpRunning, pc := Aborting))).value;
    forall u | 0 < u < |st.threads| ensures ThreadOk(st', u) && WaitOk(st', u) { assert ThreadOk(st, u) && WaitOk(st, u); }
    forall u, v | 0 < u < |st.threads| && 0 < v < |st.threads| && u != v ensures PairOk(st', u, v) {
      assert PairOk(st, u, v) && ThreadOk(st, u);
    }
  }

  lemma WakeToUserOrdered(st: State, t: nat)
    requires Ordered(st) && 0 < t < |st.threads|
    requires st.mutex == 0 && st.threads[t].pc.WaitingAborted?
    ensures Ordered(Set(st, t, st.threads[t].(soon := true, pc := User)))
  {
    assert ThreadOk(st, t);
    var st' := Set(st, t, st.threads[t].(soon := true, pc := User));
    forall u | 0 < u < |st.threads| ensures ThreadOk(st', u) && WaitOk(st', u) { assert ThreadOk(st, u) && WaitOk(st, u); }
    forall u, v | 0 < u < |st.threads| && 0 < v < |st.threads| && u != v ensures PairOk(st', u, v) {
      assert PairOk(st, u, v) && ThreadOk(st, u);
    }
  }

  lemma WakeAbortedOrdered(st: State, t: nat)
    requires Ordered(st) && WellFormed(st.mem) && 0 < t < |st.threads| && st.mutex == 0 && st.threads[t].pc.WaitingAborted?
    ensures 0 < st.threads[t].pc.other < |st.threads| && st.threads[t].pc.other != t
    ensures var o := Wake(st, t); o.Some? && Ordered(o.value)
  {
    assert ThreadOk(st, t);
    var i := st.threads[t].pc.other;
    if MustAbort(st.threads[t]) {
      WakeToOrdered(st, t, Aborting);
    } else if AbortingNow(st.threads[i]) {
      RekillOrdered(st, t, i);
      WakeToUserOrdered(Kill(st, i).value, t);
    } else {
      WakeToUserOrdered(st, t);
    }
  }

  /** Resetting a transaction twice does no harm. */
  lemma RekillOrdered(st: State, t: nat, i: nat)
    requires Ordered(st) && WellFormed(st.mem) && 0 < t < |st.threads|
    requires 0 < i < |st.threads| && i != t && AbortingNow(st.threads[i])
    ensures var o := Kill(st, i); o.Some? && Ordered(o.value)
  {
    assert ThreadOk(st, i);
    MemoryOrdered(st, i, Reset(st.mem, i));
    assert Set(st, i, st.threads[i].(signal := SigAbort, killed := true)) == st;
  }

  lemma WakeUpOrdered(st: State, t: nat)
    requires Ordered(st) && WellFormed(st.mem) && 0 < t < |st.threads| && st.mutex == 0
    requires st.threads[t].pc.Paused? || st.threads[t].pc.WaitingOthers? || st.threads[t].pc.WaitingDone?
    ensures var o := Wake(st, t); o.Some? && Ordered(o.value)
  {
    assert ThreadOk(st, t);
    var th := st.threads[t];
    match th.pc
    case Paused(task) => WakeToOrdered(st, t, AtPoll(task));
    case WaitingOthers(_) => if MustAbort(th) { WakeToUnpauseOrdered(st, t); } else { WakeToCountOrdered(st, t); }
    case WaitingDone(kind, _, _) =>
      WakeToOrdered(st, t, if MustAbort(th) then Aborting else if kind == WriteRead then AtPoll(Committing) else InevLoop);
  }

  // ----- contention as a whole

  lemma ManageSleepOrdered(st: State, t: nat, kind: Kind, i: nat)
    requires Ordered(st) && WellFormed(st.mem) && 0 < t < |st.threads| && st.threads[t].pc == Clash(kind, i)
    requires 0 < i < |st.threads| && i != t && !MustAbort(st.threads[t])
    requires Judge(st.threads[t], st.threads[i], kind) == Some(Sleep)
    ensures var o := Manage(st, t, kind, i); o.Some? && Ordered(o.value)
  {
    assert ThreadOk(st, t) && ThreadOk(st, i);
    PromiseOrdered(st, t, i);
    var st1 := Set(st, i, st.threads[i].(signalWhenDone := true));
    SoonOrdered(st1, t, i);
    SleepOrdered(CommitSoon(st1, i), t, kind, i);
  }

  lemma ManageAbortSelfOrdered(st: State, t: nat, kind: Kind, i: nat)
    requires Ordered(st) && WellFormed(st.mem) && 0 < t < |st.threads| && st.threads[t].pc == Clash(kind, i)
    requires 0 < i < |st.threads| && i != t
    requires MustAbort(st.threads[t]) || Judge(st.threads[t], st.threads[i], kind) == Some(AbortSelf)
    ensures var o := Manage(st, t, kind, i); o.Some? && Ordered(o.value)
  {
    assert ThreadOk(st, t);
    if MustAbort(st.threads[t]) {
      AbortingOrdered(st, t);
    } else {
      SoonOrdered(st, t, i);
      AbortingOrdered(CommitSoon(st, i), t);
    }
  }

  lemma KillOrdered(st: State, t: nat, i: nat)
    requires Ordered(st) && WellFormed(st.mem) && 0 < t < |st.threads| && st.mutex == t
    requires 0 < i < |st.threads| && i != t && st.threads[i].status == Regular && st.threads[i].sp != SpRunning
    ensures var o := Kill(st, i); o.Some? && Ordered(o.value)
  {
    MemoryOrdered(st, i, Reset(st.mem, i));
    DoomStoppedOrdered(st.(mem := Reset(st.mem, i)), t, i);
  }

  lemma ManageDoomOrdered(st: State, t: nat, kind: Kind, i: nat)
    requires Ordered(st) && WellFormed(st.mem) && 0 < t < |st.threads| && st.threads[t].pc == Clash(kind, i)
    requires 0 < i < |st.threads| && i != t && !MustAbort(st.threads[t])
    requires Judge(st.threads[t], st.threads[i], kind) == Some(AbortOther) && st.threads[i].sp == SpRunning
    ensures var o := Manage(st, t, kind, i); o.Some? && Ordered(o.value)
  {
    assert ThreadOk(st, t) && ThreadOk(st, i) && PairOk(st, t, i);
    if st.unique { UniqueAlone(st, t); }
    DoomRunningOrdered(st, t, i);
    AwaitAbortOrdered(Set(st, i, st.threads[i].(signal := SigAbort)), t, i);
  }

  lemma ManageKillOrdered(st: State, t: nat, kind: Kind, i: nat)
    requires Ordered(st) && WellFormed(st.mem) && 0 < t < |st.threads| && st.threads[t].pc == Clash(kind, i)
    requires 0 < i < |st.threads| && i != t && !MustAbort(st.threads[t])
    requires Judge(st.threads[t], st.threads[i], kind) == Some(AbortOther) && st.threads[i].sp != SpRunning
    ensures var o := Manage(st, t, kind, i); o.Some? && Ordered(o.value)
  {
    assert ThreadOk(st, t) && ThreadOk(st, i);
    var st0 := if st.threads[i].sp == SpTransactionDone then WakeWaiters(st) else st;
    if st.threads[i].sp == SpTransactionDone { WakeOrdered(st, t); }
    KillOrdered(st0, t, i);
    if kind == WriteWrite { RetryOrdered(Kill(st0, i).value, t); } else { RecheckOrdered(Kill(st0, i).value, t); }
  }

  lemma ManageOrdered(st: State, t: nat, kind: Kind, i: nat)
    requires Ordered(st) && WellFormed(st.mem) && 0 < t < |st.threads| && st.threads[t].pc == Clash(kind, i)
    ensures 0 < i < |st.threads| && i != t
    ensures var o := Manage(st, t, kind, i); o.Some? && Ordered(o.value)
  {
    assert ThreadOk(st, t) && ThreadOk(st, i) && PairOk(st, t, i);
    if MustAbort(st.threads[t]) {
      ManageAbortSelfOrdered(st, t, kind, i);
    } else {
      match Judge(st.threads[t], st.threads[i], kind)
      case Some(Sleep) => ManageSleepOrdered(st, t, kind, i);
      case Some(AbortSelf) => ManageAbortSelfOrdered(st, t, kind, i);
      case Some(AbortOther) =>
        if st.threads[i].sp == SpRunning { ManageDoomOrdered(st, t, kind, i); } else { ManageKillOrdered(st, t, kind, i); }
    }
  }

  // ----- every step

  lemma InevOrdered(st: State, t: nat)
    requires Ordered(st) && Enabled(st, Step(t)) && st.threads[t].pc == InevLoop
    ensures var o := Next(st, Step(t)); o.Some? && Ordered(o.value)
  {
    var i := FirstInevitable(st.threads, 1);
    if i < |st.threads| { InevClashOrdered(st, t, i); } else { InevAloneOrdered(st, t); }
  }

  lemma CountOrdered(st: State, t: nat, task: Task)
    requires Ordered(st) && 0 < t < |st.threads| && st.threads[t].pc == Counting(task)
    ensures var o := Count(st, t, task); o.Some? && Ordered(o.value)
  {
    if OthersRunning(st, t) { CountWaitOrdered(st, t, task); }
    else if task == GoingUnique { CountUniqueOrdered(st, t); }
    else { CountStopOrdered(st, t, task); }
  }

  lemma StepOrdered(st: State, t: nat)
    requires Ordered(st) && Enabled(st, Step(t))
    ensures var o := Next(st, Step(t)); o.Some? && Ordered(o.value)
  {
    match st.threads[t].pc
    case AtPoll(task) => PollOrdered(st, t, task);
    case Counting(task) => CountOrdered(st, t, task);
    case InevLoop => InevOrdered(st, t);
    case Clash(kind, i) => ManageOrdered(st, t, kind, i);
    case Aborting => AbortOrdered(st, t);
    case WaitingAborted(_) => WakeAbortedOrdered(st, t);
    case _ => WakeUpOrdered(st, t);
  }

  lemma ProgramOrdered(st: State, a: Action)
    requires Ordered(st) && Enabled(st, a) && (a.Read? || a.Get? || a.Barrier? || a.MakePrivate? || a.Put?)
    ensures Next(st, a).Some? && Ordered(Next(st, a).value)
  {
    assert ThreadOk(st, a.t);
    MemoryOrdered(st, a.t, Next(st, a).value.mem);
  }

  lemma ActionOrdered(st: State, a: Action)
    requires Inv(st) && Enabled(st, a)
    ensures Next(st, a).Some? && Ordered(Next(st, a).value)
  {
    hide Poll, Count, Abort, Manage, Wake, Commit, WaitOk, PairOk;
    assert ThreadOk(st, a.t);
    match a
    case Start(_) => StartOrdered(st, a);
    case BumpVersion(t) =>
      MemoryOrdered(st, t, NewVersion(st.mem, t));
      BumpOrdered(st.(mem := NewVersion(st.mem, t)), t);
    case Contend(t, o) => LockHolderBusy(st, t, o); ContendOrdered(st, a);
    case Call(_, _) => CallOrdered(st, a);
    case Step(t) => StepOrdered(st, t);
    case Found(_, _, _) => FoundOrdered(st, a);
    case Leave(_) => FoundOrdered(st, a);
    case DoCommit(t) => CommitOrdered(st, t);
    case DoCollect(_) => CollectOrdered(st, a);
    case UserAbort(t) => UserAbortOrdered(st, t);
    case _ => ProgramOrdered(st, a);
  }

  lemma LockHolderBusy(st: State, t: nat, o: nat)
    requires Inv(st) && o < st.mem.objects && st.mem.locks[o] != 0
    ensures st.mem.locks[o] < |st.threads| && st.threads[st.mem.locks[o]].status != Idle
  {
    var i := st.mem.locks[o];
    assert o in st.mem.segs[i].modified;
    assert ThreadOk(st, i);
  }

  // ----- memory

  /** What lets a commit go through means that no live transaction used the
      objects being committed. */
  lemma NoConflictFound(st: State, t: nat)
    requires Inv(st) && 0 < t < |st.threads|
    requires forall i, o :: 0 <= i < |st.threads| ==> !Conflict(st, t, i, o)
    ensures NoConflict(st.mem, t)
  {
    var m := st.mem;
    forall i, o | 0 < i < |m.segs| && i != t && o in m.segs[t].modified ensures !Touched(m, i, o) {
      assert ThreadOk(st, i) && !Conflict(st, t, i, o);
      if st.threads[i].status != Idle && !AbortingNow(st.threads[i]) {
        assert o !in m.segs[i].marked;
      }
    }
  }

  lemma ActionCoherent(st: State, a: Action)
    requires Inv(st) && Enabled(st, a) && Next(st, a).Some?
    ensures Coherent(Next(st, a).value.mem)
  {
    assert ThreadOk(st, a.t);
    match a
    case BumpVersion(t) => NewVersionKeeps(st.mem, t);
    case Read(t, o) => MarkReadKeeps(st.mem, t, o);
    case Get(t, x) => LoadFieldKeeps(st.mem, t, x);
    case Barrier(t, o) => TakeLockKeeps(st.mem, t, o);
    case MakePrivate(t, p) => PrivatizeKeeps(st.mem, t, p);
    case Put(t, x, v) => StoreFieldKeeps(st.mem, t, x, v);
    case Contend(t, o) => MarkReadKeeps(st.mem, t, o);
    case DoCommit(t) => NoConflictFound(st, t); PushKeeps(st.mem, t);
    case DoCollect(_) => ReshareKeeps(st.mem);
    case Step(t) => StepCoherent(st, t);
    case _ =>
  }

  lemma StepCoherent(st: State, t: nat)
    requires Inv(st) && Enabled(st, Step(t)) && Next(st, Step(t)).Some?
    ensures Coherent(Next(st, Step(t)).value.mem)
  {
    ResetKeeps(st.mem, t);
    StepMemory(st, t);
    var m' := Next(st, Step(t)).value.mem;
    if m' != st.mem {
      var i :| 0 < i < |st.mem.segs| && m' == Reset(st.mem, i);
      ResetKeeps(st.mem, i);
    }
  }

  /** Steps taken under the mutex change memory only by resetting a transaction. */
  /** The memory is as it was, or one transaction was reset. */
  ghost predicate Resets(m: Memory, m': Memory) {
    m' == m || (WellFormed(m) && exists i :: 0 < i < |m.segs| && m' == Reset(m, i))
  }

  lemma ManageMemory(st: State, t: nat, kind: Kind, i: nat)
    requires WellFormed(st.mem) && 0 < t < |st.threads| == |st.mem.segs| && 0 < i < |st.threads| && i != t
    ensures var o := Manage(st, t, kind, i); o.Some? ==> Resets(st.mem, o.value.mem)
  {
  }

  lemma WakeMemory(st: State, t: nat)
    requires WellFormed(st.mem) && 0 < t < |st.threads| == |st.mem.segs|
    requires st.threads[t].pc.WaitingAborted? ==> 0 < st.threads[t].pc.other < |st.threads| && st.threads[t].pc.other != t
    ensures var o := Wake(st, t); o.Some? ==> Resets(st.mem, o.value.mem)
  {
  }

  lemma LoopMemory(st: State, t: nat, task: Task)
    requires WellFormed(st.mem) && 0 < t < |st.threads| == |st.mem.segs|
    ensures var o := Poll(st, t, task); o.Some? ==> o.value.mem == st.mem
    ensures var o := Count(st, t, task); o.Some? ==> o.value.mem == st.mem
  {
  }

  lemma StepMemory(st: State, t: nat)
    requires Enabled(st, Step(t)) && Next(st, Step(t)).Some?
    ensures Resets(st.mem, Next(st, Step(t)).value.mem)
  {
    hide Manage, Wake, Poll, Count;
    match st.threads[t].pc
    case AtPoll(task) => LoopMemory(st, t, task);
    case Counting(task) => LoopMemory(st, t, task);
    case Aborting =>
    case InevLoop =>
    case Clash(kind, i) => if 0 < i < |st.threads| && i != t { ManageMemory(st, t, kind, i); }
    case _ => WakeMemory(st, t);
  }

  /** Every step keeps the invariant, and no assertion or fatal error of the C
      code is ever met. */
  lemma ActionKeeps(st: State, a: Action)
    requires Inv(st) && Enabled(st, a)
    ensures Next(st, a).Some? && Inv(Next(st, a).value)
  {
    ActionOrdered(st, a);
    ActionCoherent(st, a);
  }
}
