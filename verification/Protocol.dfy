/** The transaction protocol of the c7 library as a machine of small steps:
    starting, reading, writing, safe points, stopping the world, contention,
    commit and abort, for any number of segments.

    What a thread does is its `pc`.  Code that runs with the global mutex is cut
    at every point where another thread could look at shared state; threads that
    run user code interleave freely with it.  A `cond_wait` may wake at any time
    when the mutex is free.  `None` as the outcome of a step stands for a failed
    assertion or a call of stm_fatalerror in the C code. */
module Protocol {
  import opened Wrappers
  import opened History
  import opened Views

  datatype Status = Idle | Regular | Inevitable

  datatype SafePoint = SpNone | SpRunning | SpRequestRemoved | SpAtSafePoint | SpTransactionDone

  /** nursery_end: its real value, or one of the signals. */
  datatype Signal = NoSignal | SigAbort | SigPause | SigCommitSoon

  datatype Kind = WriteWrite | WriteRead | InevitableClash

  /** On whose behalf a thread looks for a pending signal. */
  datatype Task = Starting | Polling | Committing | Collecting | GoingUnique | GoingInevitable

  datatype Pc =
    | Outside                                  // no transaction on this segment
    | Fresh                                    // started, read version not yet changed
    | User                                     // running the program
    | AtPoll(task: Task)                       // enter_safe_point_if_requested, top of the loop
    | Paused(task: Task)                       // ... in cond_wait(C_REQUEST_REMOVED)
    | Counting(task: Task)                     // synchronize_all_threads, top of the loop
    | WaitingOthers(task: Task)                // ... in cond_wait(C_AT_SAFE_POINT)
    | Stopped(task: Task)                      // the other threads are stopped
    | InevLoop                                 // wait_for_end_of_inevitable_transaction
    | Clash(kind: Kind, other: nat)            // contention_management
    | WaitingDone(kind: Kind, other: nat, woken: bool)  // ... in cond_wait(C_TRANSACTION_DONE)
    | WaitingAborted(other: nat)               // ... in cond_wait(C_ABORTED)
    | Aborting                                 // abort_with_mutex

  datatype Thread = Thread(
    status: Status,          // transaction_state
    sp: SafePoint,           // safe_point
    signal: Signal,          // nursery_end
    start: nat,              // unique_start_time
    soon: bool,              // signalled_to_commit_soon
    signalWhenDone: bool,
    killed: bool,            // another thread already reset this transaction's data
    stamp: nat,              // when it last began to wait for another transaction
    pc: Pc)

  datatype State = State(
    mem: Memory,
    threads: seq<Thread>,    // threads[t] runs on segment t; entry 0 is not used
    mutex: nat,              // holder of the global mutex, 0 if free
    pause: bool,             // pause_signalled
    unique: bool,            // globally_unique_transaction
    clock: nat,              // _global_start_time
    pauser: nat,             // who asked for the pause, 0 if nobody (bookkeeping)
    stamps: nat)

  // ----- the pieces of code

  function Set(st: State, t: nat, th: Thread): State
    requires t < |st.threads|
  {
    st.(threads := st.threads[t := th])
  }

  predicate MustAbort(th: Thread) { th.signal == SigAbort }

  predicate AbortingNow(th: Thread) { th.signal == SigAbort && th.sp != SpRunning }

  /** signal_other_to_commit_soon */
  function CommitSoon(st: State, i: nat): (r: State)
    requires i < |st.threads|
    ensures |r.threads| == |st.threads|
  {
    var th := st.threads[i];
    if !th.soon && th.signal != SigAbort && !st.pause then Set(st, i, th.(signal := SigCommitSoon)) else st
  }

  /** signal_everybody_to_pause_running */
  function PauseAll(st: State, t: nat): (r: Option<State>)
    ensures r.Some? ==> |r.value.threads| == |st.threads|
  {
    if st.pause then None else
      Some(st.(pause := true, pauser := t,
               threads := seq(|st.threads|, i requires 0 <= i < |st.threads| =>
                 if st.threads[i].signal == NoSignal then st.threads[i].(signal := SigPause) else st.threads[i])))
  }

  /** remove_requests_for_safe_point */
  function UnpauseAll(st: State): (r: Option<State>)
    ensures r.Some? ==> |r.value.threads| == |st.threads|
  {
    if !st.pause || exists i :: 0 < i < |st.threads| && st.threads[i].signal == NoSignal then None else
      Some(st.(pause := false, pauser := 0,
               threads := seq(|st.threads|, i requires 0 <= i < |st.threads| =>
                 if st.threads[i].signal == SigPause then st.threads[i].(signal := NoSignal) else st.threads[i])))
  }

  /** cond_broadcast(C_TRANSACTION_DONE) */
  function WakeWaiters(st: State): (r: State)
    ensures |r.threads| == |st.threads|
  {
    st.(threads := seq(|st.threads|, i requires 0 <= i < |st.threads| =>
      var th := st.threads[i];
      if th.pc.WaitingDone? then th.(pc := th.pc.(woken := true)) else th))
  }

  /** _finish_transaction: wake whoever waits for this transaction, release the
      segment and the mutex. */
  function Finish(st: State, t: nat): (r: State)
    requires t < |st.threads|
    ensures |r.threads| == |st.threads|
  {
    var st1 := if st.threads[t].signalWhenDone then WakeWaiters(st) else st;
    Set(st1, t, st1.threads[t].(status := Idle, sp := SpNone, signalWhenDone := false, killed := false, pc := Outside)).(mutex := 0)
  }

  /** abort_with_mutex */
  function Abort(st: State, t: nat): (r: Option<State>)
    requires WellFormed(st.mem) && 0 < t < |st.threads| == |st.mem.segs|
    ensures r.Some? ==> |r.value.threads| == |st.threads|
  {
    var th := st.threads[t];
    if th.status != Regular then None else
      var th1 := if th.signal == SigAbort then th.(signal := if st.pause then SigPause else NoSignal, killed := false) else th;
      Some(Finish(Set(st, t, th1).(mem := Reset(st.mem, t)), t))
  }

  /** Telling a suspended transaction to abort, and resetting its data on its
      behalf (abort_data_structures_from_segment_num). */
  function Kill(st: State, i: nat): (r: Option<State>)
    requires WellFormed(st.mem) && 0 < i < |st.threads| == |st.mem.segs|
    ensures r.Some? ==> |r.value.threads| == |st.threads|
  {
    if st.threads[i].status != Regular then None else
      Some(Set(st, i, st.threads[i].(signal := SigAbort, killed := true)).(mem := Reset(st.mem, i)))
  }

  /** What follows when no signal is pending any more. */
  function Proceed(st: State, t: nat, task: Task): (r: Option<State>)
    requires t < |st.threads|
    ensures r.Some? ==> |r.value.threads| == |st.threads|
  {
    var th := st.threads[t];
    match task
    case Starting => Some(Set(st, t, th.(pc := Fresh)).(mutex := 0))
    case Polling => Some(Set(st, t, th.(pc := User)).(mutex := 0))
    case GoingInevitable =>
      if th.status == Regular then Some(Set(st, t, th.(pc := InevLoop)))
      else if th.status == Inevitable then Some(Set(st, t, th.(pc := User)).(mutex := 0))
      else None
    case GoingUnique =>
      if st.unique then Some(Set(st, t, th.(pc := User)).(mutex := 0))
      else PauseAll(Set(st, t, th.(pc := Counting(task))), t)
    case _ =>
      if st.unique then
        if OthersRunning(st, t) then None else Some(Set(st, t, th.(pc := Stopped(task))))
      else PauseAll(Set(st, t, th.(pc := Counting(task))), t)
  }

  /** count_other_threads_sp_running() > 0 */
  predicate OthersRunning(st: State, t: nat) {
    exists i :: 0 < i < |st.threads| && i != t && st.threads[i].sp == SpRunning
  }

  /** What count_other_threads_sp_running asserts against: a thread that still runs
      and has no signal pending. */
  predicate Unsignalled(st: State, t: nat) {
    exists i :: 0 < i < |st.threads| && i != t && st.threads[i].sp == SpRunning && st.threads[i].signal == NoSignal
  }

  /** One round of the loop in enter_safe_point_if_requested. */
  function Poll(st: State, t: nat, task: Task): (r: Option<State>)
    requires WellFormed(st.mem) && 0 < t < |st.threads| == |st.mem.segs|
    ensures r.Some? ==> |r.value.threads| == |st.threads|
  {
    var th := st.threads[t];
    match th.signal
    case SigAbort => Some(Set(st, t, th.(pc := Aborting)))
    case NoSignal => Proceed(st, t, task)
    case SigCommitSoon =>
      if !st.pause then Proceed(Set(st, t, th.(soon := true, signal := NoSignal)), t, task)
      else Some(Set(st, t, th.(soon := true, signal := SigPause, sp := SpRequestRemoved, pc := Paused(task))).(mutex := 0))
    case SigPause =>
      if !st.pause then None
      else Some(Set(st, t, th.(sp := SpRequestRemoved, pc := Paused(task))).(mutex := 0))
  }

  /** The loop test in synchronize_all_threads, and what follows the loop. */
  function Count(st: State, t: nat, task: Task): (r: Option<State>)
    requires t < |st.threads|
    ensures r.Some? ==> |r.value.threads| == |st.threads|
  {
    var th := st.threads[t];
    if Unsignalled(st, t) then None
    else if OthersRunning(st, t) then
      Some(Set(st, t, th.(sp := SpAtSafePoint, pc := WaitingOthers(task))).(mutex := 0))
    else if task == GoingUnique then
      if th.signal != SigPause then None
      else Some(Set(st, t, th.(signal := NoSignal, pc := User)).(unique := true, mutex := 0))
    else
      match UnpauseAll(st)
      case None => None
      case Some(st1) => Some(Set(st1, t, st1.threads[t].(pc := Stopped(task))))
  }

  datatype Verdict = Sleep | AbortSelf | AbortOther

  /** cm_pause_if_younger, corrected for signals and inevitable transactions. */
  function Judge(me: Thread, other: Thread, kind: Kind): (v: Option<Verdict>) {
    var younger := me.start >= other.start;
    if other.signal == SigAbort then Some(AbortOther)
    else if me.status == Inevitable then
      if other.status == Inevitable then None else Some(AbortOther)
    else
      var abortOther := !younger && other.status != Inevitable;
      if younger && kind != WriteWrite && other.sp != SpTransactionDone then Some(Sleep)
      else if !abortOther then Some(AbortSelf)
      else Some(AbortOther)
  }

  /** After an abort of somebody else, a write barrier tries again and a commit
      looks for the next conflict; both ask to commit soon. */
  function Resumed(st: State, t: nat, kind: Kind): (r: Option<State>)
    requires t < |st.threads|
    ensures r.Some? ==> |r.value.threads| == |st.threads|
  {
    var th := st.threads[t].(soon := true);
    match kind
    case WriteWrite => Some(Set(st, t, th.(pc := User)).(mutex := 0))
    case WriteRead => Some(Set(st, t, th.(pc := Stopped(Committing))))
    case InevitableClash => Some(Set(st, t, th.(pc := InevLoop)))
  }

  /** contention_management */
  function Manage(st: State, t: nat, kind: Kind, i: nat): (r: Option<State>)
    requires WellFormed(st.mem) && 0 < t < |st.threads| == |st.mem.segs| && 0 < i < |st.threads| && i != t
    ensures r.Some? ==> |r.value.threads| == |st.threads|
  {
    var me, other := st.threads[t], st.threads[i];
    if MustAbort(me) then Some(Set(st, t, me.(pc := Aborting))) else
      match Judge(me, other, kind)
      case None => None
      case Some(Sleep) =>
        var st1 := CommitSoon(Set(st, i, other.(signalWhenDone := true)), i);
        Some(Set(st1, t, me.(sp := SpTransactionDone, pc := WaitingDone(kind, i, false), stamp := st.stamps))
             .(mutex := 0, stamps := st.stamps + 1))
      case Some(AbortSelf) => Some(Set(CommitSoon(st, i), t, me.(pc := Aborting)))
      case Some(AbortOther) =>
        match other.sp
        case SpRunning => Some(Set(Set(st, i, other.(signal := SigAbort)), t, me.(pc := WaitingAborted(i))).(mutex := 0))
        case SpNone => None
        case _ =>
          match Kill(if other.sp == SpTransactionDone then WakeWaiters(st) else st, i)
          case None => None
          case Some(st1) => Resumed(st1, t, kind)
  }

  /** The scan in wait_for_end_of_inevitable_transaction. */
  function FirstInevitable(threads: seq<Thread>, i: nat): (r: nat)
    requires i <= |threads|
    ensures i <= r <= |threads|
    ensures r < |threads| ==> threads[r].status == Inevitable
    ensures forall j :: i <= j < r ==> threads[j].status != Inevitable
    decreases |threads| - i
  {
    if i == |threads| || threads[i].status == Inevitable then i else FirstInevitable(threads, i + 1)
  }

  /** Waking up from a cond_wait, with the mutex again. */
  function Wake(st: State, t: nat): (r: Option<State>)
    requires WellFormed(st.mem) && 0 < t < |st.threads| == |st.mem.segs|
    requires st.threads[t].pc.WaitingAborted? ==> 0 < st.threads[t].pc.other < |st.threads| && st.threads[t].pc.other != t
    ensures r.Some? ==> |r.value.threads| == |st.threads|
  {
    var th := st.threads[t].(sp := SpRunning);
    var st1 := st.(mutex := t);
    match th.pc
    case Paused(task) => Some(Set(st1, t, th.(pc := AtPoll(task))))
    case WaitingOthers(task) =>
      if MustAbort(th) then UnpauseAll(Set(st1, t, th.(pc := Aborting)))
      else Some(Set(st1, t, th.(pc := Counting(task))))
    case WaitingDone(kind, _, _) =>
      if MustAbort(th) then Some(Set(st1, t, th.(pc := Aborting)))
      else if kind == WriteRead then Some(Set(st1, t, th.(pc := AtPoll(Committing))))
      else Some(Set(st1, t, th.(pc := InevLoop)))
    case WaitingAborted(i) =>
      if MustAbort(th) then Some(Set(st1, t, th.(pc := Aborting)))
      else
        var st2 := if AbortingNow(st.threads[i]) then Kill(st1, i) else Some(st1);
        if st2.None? then None else Resumed(st2.value, t, WriteWrite)
    case _ => None
  }

  /** was_read_remote, as asked by detect_write_read_conflicts: the commit of
      `t` would overwrite what segment `i` read. */
  predicate Conflict(st: State, t: nat, i: nat, o: nat)
    requires WellFormed(st.mem) && t < |st.threads| == |st.mem.segs| && i < |st.threads|
  {
    && i != 0 && i != t && st.threads[i].status != Idle && !AbortingNow(st.threads[i])
    && o in st.mem.segs[t].modified && o < st.mem.objects
    && st.mem.segs[i].markers[o] == st.mem.segs[i].version
  }

  /** The end of stm_commit_transaction. */
  function Commit(st: State, t: nat): (r: Option<State>)
    requires WellFormed(st.mem) && 0 < t < |st.threads| == |st.mem.segs|
    ensures r.Some? ==> |r.value.threads| == |st.threads|
  {
    var st1 := st.(mem := Push(st.mem, t));
    if st.threads[t].signal != NoSignal then None
    else if st.threads[t].status == Inevitable && st.unique then
      match UnpauseAll(Set(st1, t, st.threads[t].(signal := SigPause)).(unique := false))
      case None => None
      case Some(st2) => Some(Finish(st2, t))
    else Some(Finish(st1, t))
  }

  // ----- the machine

  datatype Action =
    | Start(t: nat)
    | BumpVersion(t: nat)
    | Read(t: nat, o: nat)                // stm_read
    | Get(t: nat, a: nat)                 // load a field of an object read before
    | Barrier(t: nat, o: nat)             // write barrier: the lock is free
    | MakePrivate(t: nat, p: nat)         // page_privatize
    | Put(t: nat, a: nat, v: int)         // store into a field after the barrier
    | Contend(t: nat, o: nat)             // write barrier: somebody else has the lock
    | Call(t: nat, task: Task)            // take the mutex and look for signals
    | Step(t: nat)                        // the next step at the thread's pc
    | Found(t: nat, i: nat, o: nat)       // a write-read conflict while committing
    | DoCommit(t: nat)
    | DoCollect(t: nat)                   // major collection: share pages again
    | Leave(t: nat)                       // give the mutex back without committing
    | UserAbort(t: nat)                   // stm_abort_transaction

  ghost predicate Enabled(st: State, a: Action) {
    && WellFormed(st.mem) && |st.threads| == |st.mem.segs| && 0 < a.t < |st.threads|
    && var th := st.threads[a.t];
       var pc := th.pc;
       match a
       case Start(t) => pc == Outside && st.mutex == 0
       case BumpVersion(t) => pc == Fresh
       case Read(t, o) => pc == User && o < st.mem.objects
       case Get(t, x) => pc == User && CanAccess(st.mem, t, x)
       case Barrier(t, o) => pc == User && o < st.mem.objects && st.mem.locks[o] == 0
       case MakePrivate(t, p) => pc == User
       case Put(t, x, v) => pc == User && CanStore(st.mem, t, x)
       case Contend(t, o) => pc == User && st.mutex == 0 && o < st.mem.objects && st.mem.locks[o] !in {0, t}
       case Call(t, task) => pc == User && st.mutex == 0 && task != Starting && (task == GoingUnique ==> th.status == Inevitable)
       case Step(t) =>
         if pc.Paused? || pc.WaitingOthers? || pc.WaitingDone? || pc.WaitingAborted? then st.mutex == 0
         else pc.AtPoll? || pc.Counting? || pc.InevLoop? || pc.Clash? || pc.Aborting?
       case Found(t, i, o) => pc == Stopped(Committing) && i < |st.threads| && Conflict(st, t, i, o)
       case DoCommit(t) => pc == Stopped(Committing) && forall i, o :: 0 <= i < |st.threads| ==> !Conflict(st, t, i, o)
       case DoCollect(t) => pc.Stopped?
       case Leave(t) => pc.Stopped?
       case UserAbort(t) => pc == User && st.mutex == 0 && th.status == Regular
  }

  ghost function Next(st: State, a: Action): (r: Option<State>)
    requires Enabled(st, a)
    ensures r.Some? ==> |r.value.threads| == |st.threads|
  {
    var t := a.t;
    var th := st.threads[t];
    match a
    case Start(_) =>
      Some(Set(st, t, th.(status := Regular, sp := SpRunning, start := st.clock, soon := false, pc := AtPoll(Starting)))
           .(clock := st.clock + 1, mutex := t))
    case BumpVersion(_) => Some(Set(st, t, th.(pc := User)).(mem := NewVersion(st.mem, t)))
    case Read(_, o) => Some(st.(mem := MarkRead(st.mem, t, o)))
    case Get(_, x) => Some(st.(mem := LoadField(st.mem, t, x)))
    case Barrier(_, o) => Some(st.(mem := TakeLock(st.mem, t, o)))
    case MakePrivate(_, p) => Some(st.(mem := Privatize(st.mem, t, p)))
    case Put(_, x, v) => Some(st.(mem := StoreField(st.mem, t, x, v)))
    case Contend(_, o) =>
      Some(Set(st, t, th.(pc := Clash(WriteWrite, st.mem.locks[o]))).(mem := MarkRead(st.mem, t, o), mutex := t))
    case Call(_, task) => Some(Set(st, t, th.(pc := AtPoll(task))).(mutex := t))
    case Step(_) =>
      (match th.pc
       case AtPoll(task) => Poll(st, t, task)
       case Counting(task) => Count(st, t, task)
       case Aborting => Abort(st, t)
       case InevLoop =>
         var i := FirstInevitable(st.threads, 1);
         if i < |st.threads| then Some(Set(st, t, th.(pc := Clash(InevitableClash, i))))
         else Some(Set(st, t, th.(status := Inevitable, pc := User)).(mutex := 0))
       case Clash(kind, i) => if 0 < i < |st.threads| && i != t then Manage(st, t, kind, i) else None
       case WaitingAborted(i) => if 0 < i < |st.threads| && i != t then Wake(st, t) else None
       case _ => Wake(st, t))
    case Found(_, i, _) => Some(Set(st, t, th.(pc := Clash(WriteRead, i))))
    case DoCommit(_) => Commit(st, t)
    case DoCollect(_) => Some(st.(mem := Reshare(st.mem)))
    case Leave(_) => Some(Set(st, t, th.(pc := User)).(mutex := 0))
    case UserAbort(_) => Some(Set(st, t, th.(pc := Aborting)).(mutex := t))
  }

  /** stm_setup: no transaction, every page shared, and a read version that
      makes the first transaction wipe the markers. */
  function NewSegment(bytes: seq<int>, objects: nat): SegmentState {
    SegmentState(bytes, {}, seq(objects, _ => 0), MAX_VERSION, [], {}, [])
  }

  function Initial(segments: nat, owner: seq<nat>, objects: nat, bytes: seq<int>): State {
    State(Memory(owner, objects, seq(segments + 1, _ => NewSegment(bytes, objects)), seq(objects, _ => 0), []),
          seq(segments + 1, _ => Thread(Idle, SpNone, NoSignal, 0, false, false, false, 0, Outside)),
          0, false, false, 1, 0, 1)
  }
}
