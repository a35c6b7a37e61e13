/** The timestamp-based commit of the C4 library (c4/et.c): versions chained by
    h_revision, a global time, locks taken at commit, validation of the reads,
    and inevitable transactions.  An action is one access to shared memory, with two
    exceptions: whoever holds the mutex sets the time and frees the mutex in one step,
    and PublishOne makes a new version and publishes it at once, which the code does
    in two loops. */
module Timestamps {
  import opened Wrappers
  import opened TrieKeys
  import opened TrieOrder

  /** h_revision of a public version: its time, a lock, or a more recent version. */
  datatype Head = Rev(time: int) | Locked(owner: nat) | Next(version: Key)

  /** What a version is: a value of an object, made by the commit at rev - 1. */
  datatype Version = Version(obj: nat, val: int, rev: int)

  /** A committed transaction: the versions it read, the values it wrote. */
  datatype Tx = Tx(seen: seq<Key>, writes: map<nat, int>)

  datatype Pc =
    | Idle
    | Running
    | Reading(p: Key, prev: Option<Key>)  // stm_DirectReadBarrier at P; prev: where the shortcut goes
    | CheckRead(p: Key)                   // ValidateNow, then the barrier again from P
    | WantInev(anew: bool)               // about to take mutex_inevitable
    | Marking(anew: bool)                // has it, about to make the time odd
    | CheckInev                           // validating in BecomeInevitable
    | Acquiring                           // AcquireLocks
    | Canceling(retry: bool)              // CancelLocks, then wait and try again, or abort
    | Timing                              // all locks held, about to advance the time
    | WaitInev                            // waiting until the inevitable transaction is done
    | CheckCommit                         // validating in CommitTransaction
    | Publishing                          // UpdateChainHeads

  /** A thread's descriptor.  `writes` is public_to_private, `order` its keys as the
      loops meet them (TrieOrder.LoopMeetsInOrder), `saved` the h_revision kept in the private copies; the locks
      held are order[lo..hi].  `k` is the cursor of a validation. */
  datatype Thread = Thread(
    pc: Pc, inev: bool, start: int, time: int, seen: seq<Key>, k: nat,
    writes: map<Key, int>, order: seq<Key>, saved: map<Key, int>, lo: nat, hi: nat)

  /** `sup` (when a version was superseded), `log` (the commits by time) and
      `first` (the initial values) are bookkeeping. */
  datatype State = State(
    time: int, mutex: Option<nat>, heads: map<Key, Head>, info: map<Key, Version>,
    sup: map<Key, int>, log: map<int, Tx>, first: map<nat, int>, threads: seq<Thread>)

  datatype Action =
    | Begin(t: nat) | BeginInevitable(t: nat) | BecomeInevitable(t: nat) | Abort(t: nat)
    | TakeMutex(t: nat) | Mark(t: nat)
    | StartRead(t: nat, p: Key) | Hop(t: nat) | OwnCopy(t: nat) | TakeRead(t: nat) | TooRecent(t: nat)
    | CheckOne(t: nat) | CheckDone(t: nat) | CheckFails(t: nat)
    | Write(t: nat, p: Key, val: int)
    | StartCommit(t: nat, order: seq<Key>) | Lock(t: nat) | LockFails(t: nat) | AllLocked(t: nat)
    | Advance(t: nat) | CancelOne(t: nat) | CancelDone(t: nat) | MutexFree(t: nat)
    | PublishOne(t: nat, copy: Key) | PublishDone(t: nat)

  /** GetGlobalCurTime: `global_cur_time & ~1`. */
  function Even(time: int): int { time / 2 * 2 }

  function Fresh(pc: Pc, start: int): Thread {
    Thread(pc, false, start, 0, [], 0, map[], [], map[], 0, 0)
  }

  function SetThread(s: State, t: nat, th: Thread): State
    requires t < |s.threads|
  {
    s.(threads := s.threads[t := th])
  }

  /** The objects and values of the first n versions in the write list. */
  function Written(info: map<Key, Version>, order: seq<Key>, writes: map<Key, int>, n: nat): map<nat, int>
    requires n <= |order| && forall i :: 0 <= i < n ==> order[i] in info && order[i] in writes
  {
    if n == 0 then map[] else Written(info, order, writes, n - 1)[info[order[n - 1]].obj := writes[order[n - 1]]]
  }

  /** From here on the transaction is committed, at time c. */
  function Commit(s: State, t: nat, c: int): State
    requires t < |s.threads|
    requires var th := s.threads[t]; forall i :: 0 <= i < |th.order| ==> th.order[i] in s.info && th.order[i] in th.writes
  {
    var th := s.threads[t];
    s.(log := s.log[c := Tx(th.seen, Written(s.info, th.order, th.writes, |th.order|))],
       sup := map v | v in s.sup.Keys + (set v | v in th.order) :: if v in th.order then c + 1 else s.sup[v],
       threads := s.threads[t := th.(pc := Publishing, inev := false, time := c)])
  }

  ghost predicate Checking(pc: Pc) { pc.CheckRead? || pc.CheckInev? || pc.CheckCommit? }

  /** Validation passes over this version. */
  ghost predicate Passes(s: State, t: nat, v: Key)
    requires t < |s.threads| && v in s.heads
  {
    s.heads[v].Rev? || (s.threads[t].pc.CheckCommit? && s.heads[v] == Locked(t))
  }

  /** Validation fails at this version: replaced, or locked by another committer. */
  ghost predicate Fails(s: State, t: nat, v: Key)
    requires t < |s.threads| && v in s.heads
  {
    s.heads[v].Next? || (s.threads[t].pc.CheckCommit? && s.heads[v].Locked? && s.heads[v] != Locked(t))
  }

  ghost predicate Enabled(s: State, a: Action) {
    a.t < |s.threads| &&
    var th := s.threads[a.t];
    match a
    case Begin(_) => th.pc.Idle?
    case BeginInevitable(_) => th.pc.Idle?
    case BecomeInevitable(_) => th.pc.Running? && !th.inev
    case Abort(_) => th.pc.Running? && !th.inev
    case TakeMutex(_) => th.pc.WantInev? && s.mutex.None?
    case Mark(_) => th.pc.Marking?
    case StartRead(_, p) => th.pc.Running? && p in s.info
    case Hop(_) => th.pc.Reading? && th.pc.p in s.heads && s.heads[th.pc.p].Next?
    case OwnCopy(_) => th.pc.Reading? && th.pc.p in s.heads && !s.heads[th.pc.p].Next? && th.pc.p in th.writes
    case TakeRead(_) => th.pc.Reading? && th.pc.p in s.heads && s.heads[th.pc.p].Rev? && th.pc.p !in th.writes && s.heads[th.pc.p].time <= th.start
    case TooRecent(_) => th.pc.Reading? && th.pc.p in s.heads && s.heads[th.pc.p].Rev? && th.pc.p !in th.writes && s.heads[th.pc.p].time > th.start
    case CheckOne(_) => Checking(th.pc) && th.k < |th.seen| && th.seen[th.k] in s.heads && Passes(s, a.t, th.seen[th.k])
    case CheckDone(_) => Checking(th.pc) && th.k == |th.seen| && (th.pc.CheckCommit? ==> Listed(s, th))
    case CheckFails(_) => Checking(th.pc) && th.k < |th.seen| && th.seen[th.k] in s.heads && Fails(s, a.t, th.seen[th.k])
    case Write(_, p, _) => th.pc.Running? && p in th.seen
    case StartCommit(_, order) => th.pc.Running? && LoopOrder(C4Tree, order, th.writes.Keys)
    case Lock(_) => th.pc.Acquiring? && th.hi < |th.order| && th.order[th.hi] in s.heads && s.heads[th.order[th.hi]].Rev?
    case LockFails(_) => th.pc.Acquiring? && th.hi < |th.order| && th.order[th.hi] in s.heads && s.heads[th.order[th.hi]].Next?
    case AllLocked(_) => th.pc.Acquiring? && th.hi == |th.order|
    case Advance(_) => th.pc.Timing? && Listed(s, th)
    case CancelOne(_) => th.pc.Canceling? && th.lo < |th.order| && th.order[th.lo] in th.saved
    case CancelDone(_) => th.pc.Canceling? && !(th.lo < |th.order| && th.order[th.lo] in th.saved)
    case MutexFree(_) => th.pc.WaitInev? && s.mutex.None?
    case PublishOne(_, copy) => th.pc.Publishing? && th.lo < |th.order| && th.order[th.lo] in s.info && th.order[th.lo] in th.writes
      && IsKey(copy) && copy !in s.info && copy !in s.heads
    case PublishDone(_) => th.pc.Publishing? && th.lo == |th.order|
  }

  ghost predicate Listed(s: State, th: Thread) {
    forall i :: 0 <= i < |th.order| ==> th.order[i] in s.info && th.order[i] in th.writes
  }

  ghost function Do(s: State, a: Action): State
    requires Enabled(s, a)
  {
    var t, th := a.t, s.threads[a.t];
    match a
    case Begin(_) => SetThread(s, t, Fresh(Running, Even(s.time)))
    case BeginInevitable(_) => SetThread(s, t, Fresh(WantInev(true), 0))
    case BecomeInevitable(_) => SetThread(s, t, th.(pc := WantInev(false)))
    case Abort(_) => SetThread(s, t, Fresh(Idle, 0))
    case TakeMutex(_) => SetThread(s, t, th.(pc := Marking(th.pc.anew))).(mutex := Some(t))
    case Mark(_) =>
      var marked := s.(time := s.time + 1);
      if th.pc.anew || th.start == s.time then SetThread(marked, t, th.(pc := Running, inev := true, start := s.time))
      else SetThread(marked, t, th.(pc := CheckInev, start := s.time, k := 0))
    case StartRead(_, p) => SetThread(s, t, th.(pc := Reading(p, None)))
    case Hop(_) =>
      var q := s.heads[th.pc.p].version;
      if th.pc.prev.None? then SetThread(s, t, th.(pc := Reading(q, Some(th.pc.p))))
      else SetThread(s.(heads := s.heads[th.pc.prev.value := Next(q)]), t, th.(pc := Reading(q, None)))
    case OwnCopy(_) => SetThread(s, t, th.(pc := Running))
    case TakeRead(_) => SetThread(s, t, th.(pc := Running, seen := th.seen + [th.pc.p]))
    case TooRecent(_) => SetThread(s, t, th.(pc := CheckRead(th.pc.p), start := Even(s.time), k := 0))
    case CheckOne(_) => SetThread(s, t, th.(k := th.k + 1))
    case CheckDone(_) =>
      if th.pc.CheckRead? then SetThread(s, t, th.(pc := Reading(th.pc.p, None)))
      else if th.pc.CheckInev? then SetThread(s, t, th.(pc := Running, inev := true))
      else Commit(s, t, th.time)
    case CheckFails(_) =>
      if th.pc.CheckRead? then SetThread(s, t, Fresh(Idle, 0))
      else if th.pc.CheckInev? then SetThread(s, t, Fresh(Idle, 0)).(time := th.start, mutex := None)
      else SetThread(s, t, th.(pc := Canceling(false)))
    case Write(_, p, val) => SetThread(s, t, th.(writes := th.writes[p := val]))
    case StartCommit(_, order) => SetThread(s, t, th.(pc := Acquiring, order := order, saved := map[], lo := 0, hi := 0))
    case Lock(_) =>
      var v := th.order[th.hi];
      SetThread(s.(heads := s.heads[v := Locked(t)]), t, th.(saved := th.saved[v := s.heads[v].time], hi := th.hi + 1))
    case LockFails(_) => SetThread(s, t, th.(pc := Canceling(false)))
    case AllLocked(_) => SetThread(s, t, th.(pc := Timing))
    case Advance(_) =>
      if th.inev then Commit(s.(time := th.start + 2, mutex := None), t, th.start)
      else if s.time % 2 == 1 then SetThread(s, t, th.(pc := Canceling(true)))
      else if s.time == th.start then Commit(s.(time := s.time + 2), t, s.time)
      else SetThread(s.(time := s.time + 2), t, th.(pc := CheckCommit, time := s.time, k := 0))
    case CancelOne(_) =>
      var v := th.order[th.lo];
      SetThread(s.(heads := s.heads[v := Rev(th.saved[v])]), t, th.(saved := th.saved - {v}, lo := th.lo + 1))
    case CancelDone(_) =>
      if th.pc.retry then SetThread(s, t, th.(pc := WaitInev)) else SetThread(s, t, Fresh(Idle, 0))
    case MutexFree(_) => SetThread(s, t, th.(pc := Acquiring, saved := map[], lo := 0, hi := 0))
    case PublishOne(_, copy) =>
      var v := th.order[th.lo];
      SetThread(s.(info := s.info[copy := Version(s.info[v].obj, th.writes[v], th.time + 1)],
                   heads := s.heads[copy := Rev(th.time + 1)][v := Next(copy)]), t, th.(lo := th.lo + 1))
    case PublishDone(_) => SetThread(s, t, Fresh(Idle, 0))
  }

  /** At the start: one version of each object, of time 1; nothing runs. */
  ghost predicate Init(s: State) {
    && s.time == 2 && s.mutex.None? && s.log == map[] && s.sup == map[] && s.heads.Keys == s.info.Keys
    && (forall v: Key :: v in s.info ==> InitialVersion(s, v))
    && (forall v: Key, w: Key :: v in s.info && w in s.info && s.info[v].obj == s.info[w].obj ==> v == w)
    && (forall t: nat :: t < |s.threads| ==> s.threads[t] == Fresh(Idle, 0))
  }

  ghost predicate InitialVersion(s: State, v: Key) {
    && v in s.info && v in s.heads && IsKey(v) && s.heads[v] == Rev(1) && s.info[v].rev == 1
    && s.info[v].obj in s.first && s.first[s.info[v].obj] == s.info[v].val
  }

  ghost predicate Run(run: seq<State>, acts: seq<Action>) {
    && |run| == |acts| + 1 && Init(run[0])
    && forall i :: 0 <= i < |acts| ==> Enabled(run[i], acts[i]) && run[i + 1] == Do(run[i], acts[i])
  }

  // ----- running the commits one at a time

  /** The value of the object before time c, when the commits run one after the
      other in the order of their times. */
  ghost function ValueAt(s: State, c: int, obj: nat): Option<int>
    decreases c
  {
    if c <= 2 then (if obj in s.first then Some(s.first[obj]) else None)
    else if c - 2 in s.log && obj in s.log[c - 2].writes then Some(s.log[c - 2].writes[obj])
    else ValueAt(s, c - 2, obj)
  }

  /** Each committed transaction read what it would read if the commits ran one
      after the other. */
  ghost predicate Serial(s: State) {
    forall c: int, v: Key :: c in s.log && v in s.log[c].seen ==>
      v in s.info && ValueAt(s, c, s.info[v].obj) == Some(s.info[v].val)
  }
}
