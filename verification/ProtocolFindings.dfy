/** Two sentences about the c7 protocol that are not true, each with a run from
    stm_setup that shows it. */
module ProtocolFindings {
  import opened Wrappers
  import opened History
  import opened Views
  import opened Protocol
  import opened ProtocolSafety
  import opened ProtocolTheorems

  /** The state after some actions, if each of them is enabled. */
  ghost predicate Leads(st: State, acts: seq<Action>, st': State)
    decreases |acts|
  {
    if acts == [] then st' == st
    else Enabled(st, acts[0]) && Next(st, acts[0]).Some? && Leads(Next(st, acts[0]).value, acts[1..], st')
  }

  /** Such actions make a run. */
  lemma {:induction false} LeadsIsRun(st: State, acts: seq<Action>, st': State) returns (states: seq<State>)
    requires Leads(st, acts, st')
    ensures IsRun(states, acts) && states[0] == st && states[|acts|] == st'
    decreases |acts|
  {
    if acts == [] {
      states := [st];
    } else {
      var next := Next(st, acts[0]).value;
      var rest := LeadsIsRun(next, acts[1..], st');
      states := [st] + rest;
      forall i | 0 <= i < |acts| ensures Follows(states[i], acts[i], states[i + 1]) {
        if i > 0 { assert Follows(rest[i - 1], acts[1..][i - 1], rest[i]); }
      }
    }
  }

  lemma RunThrough(st: State, a: seq<Action>, mid: State, b: seq<Action>, st': State) returns (states: seq<State>)
    requires Leads(st, a, mid) && Leads(mid, b, st')
    ensures IsRun(states, a + b) && states[0] == st && states[|a|] == mid && states[|a + b|] == st'
  {
    hide Leads, Follows;
    var s1 := LeadsIsRun(st, a, mid);
    var s2 := LeadsIsRun(mid, b, st');
    states := s1 + s2[1..];
    forall i | 0 <= i < |a + b| ensures Follows(states[i], (a + b)[i], states[i + 1]) {
      if i < |a| { assert Follows(s1[i], a[i], s1[i + 1]); } else { assert Follows(s2[i - |a|], b[i - |a|], s2[i - |a| + 1]); }
    }
  }

  /** One more action, and what it keeps. */
  lemma {:induction false} Then(st0: State, acts: seq<Action>, st: State, a: Action) returns (st': State)
    requires Inv(st) && Leads(st0, acts, st) && Enabled(st, a)
    ensures Next(st, a) == Some(st') && Leads(st0, acts + [a], st') && Inv(st')
    decreases |acts|
  {
    hide Inv, Enabled, Next;
    ActionKeeps(st, a);
    st' := Next(st, a).value;
    if acts == [] {
      assert Leads(st', [], st');
      assert (acts + [a])[1..] == [];
    } else {
      assert (acts + [a])[0] == acts[0] && (acts + [a])[1..] == acts[1..] + [a];
      var same := Then(Next(st0, acts[0]).value, acts[1..], st, a);
    }
  }

  // ----- stages of a run

  /** Nobody holds the mutex, and no pause is requested. */
  ghost predicate Calm(st: State) { st.mutex == 0 && !st.pause && !st.unique && |st.threads| == |st.mem.segs| && WellFormed(st.mem) }

  ghost predicate At(st: State, t: nat, status: Status, pc: Pc) {
    0 < t < |st.threads| && st.threads[t].status == status && st.threads[t].pc == pc && st.threads[t].signal == NoSignal
  }

  ghost predicate OthersSame(st: State, st': State, t: nat) {
    |st'.threads| == |st.threads| && forall u :: 0 <= u < |st.threads| && u != t ==> st'.threads[u] == st.threads[u]
  }

  ghost predicate SegsSame(st: State, st': State, t: nat) {
    |st'.mem.segs| == |st.mem.segs| && st'.mem.objects == st.mem.objects
    && forall u :: 0 <= u < |st.mem.segs| && u != t ==> st'.mem.segs[u] == st.mem.segs[u]
  }

  /** A transaction starts and runs the program. */
  lemma Starts(st0: State, acts: seq<Action>, st: State, t: nat) returns (acts': seq<Action>, st': State)
    requires Inv(st) && Leads(st0, acts, st) && Calm(st) && At(st, t, Idle, Outside)
    ensures Inv(st') && Leads(st0, acts', st') && Calm(st') && At(st', t, Regular, User) && OthersSame(st, st', t) && SegsSame(st, st', t)
    ensures st'.threads[t].start == st.clock && st'.clock == st.clock + 1 && st'.mem.locks == st.mem.locks
  {
    hide Inv, Leads;
    var s1 := Then(st0, acts, st, Start(t));
    var s2 := Then(st0, acts + [Start(t)], s1, Step(t));
    st' := Then(st0, acts + [Start(t)] + [Step(t)], s2, BumpVersion(t));
    acts' := acts + [Start(t)] + [Step(t)] + [BumpVersion(t)];
  }

  // ----- "no other segment is SP_RUNNING until it commits"

  lemma GoesInevitable(st0: State, acts: seq<Action>, st: State, t: nat) returns (acts': seq<Action>, st': State)
    requires Inv(st) && Leads(st0, acts, st) && Calm(st) && At(st, t, Regular, User)
    requires forall u :: 0 < u < |st.threads| && u != t ==> st.threads[u].status != Inevitable
    ensures Inv(st') && Leads(st0, acts', st') && Calm(st') && At(st', t, Inevitable, User) && OthersSame(st, st', t)
  {
    hide Inv, Leads;
    var a, b := Call(t, GoingInevitable), Step(t);
    var s1 := Then(st0, acts, st, a);
    var s2 := Then(st0, acts + [a], s1, b);
    assert FirstInevitable(s2.threads, 1) == |s2.threads|;
    st' := Then(st0, acts + [a] + [b], s2, b);
    acts' := acts + [a] + [b] + [b];
  }

  lemma GoesUnique(st0: State, acts: seq<Action>, st: State, t: nat) returns (acts': seq<Action>, st': State)
    requires Inv(st) && Leads(st0, acts, st) && Calm(st) && At(st, t, Inevitable, User)
    requires forall u :: 0 < u < |st.threads| && u != t ==> st.threads[u].pc == Outside && st.threads[u].sp == SpNone
    ensures Inv(st') && Leads(st0, acts', st') && |st'.threads| == |st.threads| == |st'.mem.segs| && WellFormed(st'.mem)
    ensures st'.mutex == 0 && st'.unique && st'.threads[t].status == Inevitable
    ensures forall u :: 0 < u < |st.threads| && u != t ==> st'.threads[u].pc == Outside
  {
    hide Inv, Leads;
    var a, b := Call(t, GoingUnique), Step(t);
    var s1 := Then(st0, acts, st, a);
    var s2 := Then(st0, acts + [a], s1, b);
    assert s2.threads[t].pc == Counting(GoingUnique) && !OthersRunning(s2, t);
    st' := Then(st0, acts + [a] + [b], s2, b);
    acts' := acts + [a] + [b] + [b];
  }

  /** A run with two segments in which the first becomes globally unique and then
      the second starts: it is SP_RUNNING. */
  lemma StartedWhileUnique(owner: seq<nat>, objects: nat, bytes: seq<int>) returns (states: seq<State>, acts: seq<Action>)
    requires |bytes| == |owner| && forall a :: 0 <= a < |owner| ==> owner[a] < objects
    ensures IsRun(states, acts) && StartsFresh(states, 2, owner, objects, bytes)
    ensures var st := states[|acts|];
      |st.threads| == 3 && st.unique && st.threads[1].status == Inevitable && st.threads[2].sp == SpRunning
  {
    hide Inv, Leads;
    var st0 := Initial(2, owner, objects, bytes);
    InitialInv(2, owner, objects, bytes);
    NoActions(st0);
    var acts1, s1 := Starts(st0, [], st0, 1);
    var acts2, s2 := GoesInevitable(st0, acts1, s1, 1);
    var acts3, s3 := GoesUnique(st0, acts2, s2, 1);
    var s4 := Then(st0, acts3, s3, Start(2));
    acts := acts3 + [Start(2)];
    states := LeadsIsRun(st0, acts, s4);
  }

  lemma NoActions(st: State)
    ensures Leads(st, [], st)
  {
  }

  // ----- "the marker equals the version exactly when the object was read in this transaction"

  /** Segment 1 reads an object. */
  lemma ReadsOne(st0: State, acts: seq<Action>, st: State, o: nat) returns (acts': seq<Action>, st': State)
    requires Inv(st) && Leads(st0, acts, st) && Calm(st) && At(st, 1, Regular, User) && o < st.mem.objects
    ensures Inv(st') && Leads(st0, acts', st') && Calm(st') && st' == st.(mem := MarkRead(st.mem, 1, o))
  {
    hide Inv, Leads;
    st' := Then(st0, acts, st, Read(1, o));
    acts' := acts + [Read(1, o)];
  }

  /** Segment 1 aborts. */
  lemma AbortsOne(st0: State, acts: seq<Action>, st: State) returns (acts': seq<Action>, st': State)
    requires Inv(st) && Leads(st0, acts, st) && Calm(st) && At(st, 1, Regular, User)
    ensures Inv(st') && Leads(st0, acts', st') && Calm(st') && At(st', 1, Idle, Outside)
    ensures st'.mem == Reset(st.mem, 1) && |st'.threads| == |st.threads| && st'.clock == st.clock
    ensures forall u: nat {:trigger At(st', u, Idle, Outside)} :: 1 < u && At(st, u, Idle, Outside) ==> At(st', u, Idle, Outside)
  {
    hide Inv, Leads;
    var s1 := Then(st0, acts, st, UserAbort(1));
    assert s1.mem == st.mem && s1.threads[1].pc == Aborting && s1.threads[1].signal == NoSignal && s1.threads[1].status == Regular;
    st' := Then(st0, acts + [UserAbort(1)], s1, Step(1));
    acts' := acts + [UserAbort(1)] + [Step(1)];
  }

  /** Segment 1 reads an object and aborts: the marker stays. */
  lemma ReadsAndAborts(st0: State, acts: seq<Action>, st: State, o: nat) returns (acts': seq<Action>, st': State)
    requires Inv(st) && Leads(st0, acts, st) && Calm(st) && At(st, 1, Regular, User) && o < st.mem.objects && |st.threads| > 1
    ensures Inv(st') && Leads(st0, acts', st') && Calm(st') && At(st', 1, Idle, Outside) && SegsSame(st, st', 1)
    ensures st'.mem.segs[1].markers[o] == st'.mem.segs[1].version
    ensures forall u: nat {:trigger At(st', u, Idle, Outside)} :: 1 < u && At(st, u, Idle, Outside) ==> At(st', u, Idle, Outside)
    ensures |st'.threads| == |st.threads| && st'.clock == st.clock && (forall x :: 0 <= x < |st.mem.locks| && st.mem.locks[x] == 0 ==> x < |st'.mem.locks| && st'.mem.locks[x] == 0)
  {
    hide Inv, Leads;
    var acts1, s1 := ReadsOne(st0, acts, st, o);
    acts', st' := AbortsOne(st0, acts1, s1);
  }

  /** Segment 2 takes the lock of the object. */
  lemma LocksObject(st0: State, acts: seq<Action>, st: State, o: nat) returns (acts': seq<Action>, st': State)
    requires Inv(st) && Leads(st0, acts, st) && Calm(st) && At(st, 2, Regular, User) && o < st.mem.objects && st.mem.locks[o] == 0
    ensures Inv(st') && Leads(st0, acts', st') && Calm(st') && st' == st.(mem := TakeLock(st.mem, 2, o))
    ensures SegsSame(st, st', 2) && o in st'.mem.segs[2].modified
  {
    hide Inv, Leads;
    st' := Then(st0, acts, st, Barrier(2, o));
    acts' := acts + [Barrier(2, o)];
  }

  /** Segment 2 asks everybody to pause. */
  lemma AsksToPause(st0: State, acts: seq<Action>, st: State) returns (acts': seq<Action>, st': State)
    requires Inv(st) && Leads(st0, acts, st) && Calm(st) && |st.threads| == 4
    requires At(st, 1, Idle, Outside) && At(st, 2, Regular, User) && At(st, 3, Regular, User)
    ensures Inv(st') && Leads(st0, acts', st') && st'.mem == st.mem && |st'.threads| == 4 && st'.pause && !st'.unique && st'.clock == st.clock
    ensures st'.threads[1] == st.threads[1].(signal := SigPause) && st'.threads[3] == st.threads[3].(signal := SigPause)
    ensures st'.threads[2] == st.threads[2].(pc := Counting(Committing), signal := SigPause)
  {
    hide Inv, Leads;
    var s1 := Then(st0, acts, st, Call(2, Committing));
    st' := Then(st0, acts + [Call(2, Committing)], s1, Step(2));
    acts' := acts + [Call(2, Committing)] + [Step(2)];
  }

  /** Segment 2 writes the object and asks everybody to pause. */
  lemma CommitterPauses(st0: State, acts: seq<Action>, st: State, o: nat) returns (acts': seq<Action>, st': State)
    requires Inv(st) && Leads(st0, acts, st) && Calm(st) && |st.threads| == 4 && o < st.mem.objects && st.mem.locks[o] == 0
    requires At(st, 1, Idle, Outside) && At(st, 2, Regular, User) && At(st, 3, Regular, User)
    ensures Inv(st') && Leads(st0, acts', st') && |st'.threads| == |st'.mem.segs| == 4 && WellFormed(st'.mem) && st'.pause && !st'.unique
    ensures SegsSame(st, st', 2) && o in st'.mem.segs[2].modified && st'.clock == st.clock
    ensures st'.threads[1] == st.threads[1].(signal := SigPause) && st'.threads[3] == st.threads[3].(signal := SigPause)
    ensures st'.threads[2] == st.threads[2].(pc := Counting(Committing), signal := SigPause)
  {
    hide Inv, Leads, TakeLock, MarkRead;
    var acts1, s1 := LocksObject(st0, acts, st, o);
    acts', st' := AsksToPause(st0, acts1, s1);
  }

  /** Segment 2 writes the object and starts to commit, but has to wait for segment 3. */
  lemma CommitterWaits(st0: State, acts: seq<Action>, st: State, o: nat) returns (acts': seq<Action>, st': State)
    requires Inv(st) && Leads(st0, acts, st) && Calm(st) && |st.threads| == 4 && o < st.mem.objects && st.mem.locks[o] == 0
    requires At(st, 1, Idle, Outside) && At(st, 2, Regular, User) && At(st, 3, Regular, User)
    ensures Inv(st') && Leads(st0, acts', st') && |st'.threads| == |st'.mem.segs| == 4 && WellFormed(st'.mem) && st'.mutex == 0 && st'.pause && !st'.unique
    ensures SegsSame(st, st', 2) && o in st'.mem.segs[2].modified && st'.clock == st.clock
    ensures st'.threads[1].pc == Outside && st'.threads[1].signal == SigPause
    ensures st'.threads[2] == st.threads[2].(pc := WaitingOthers(Committing), sp := SpAtSafePoint, signal := SigPause)
    ensures st'.threads[3] == st.threads[3].(signal := SigPause)
  {
    hide Inv, Leads;
    var acts1, s1 := CommitterPauses(st0, acts, st, o);
    RunningUser(s1, 3);
    assert OthersRunning(s1, 2);
    st' := Then(st0, acts1, s1, Step(2));
    acts' := acts1 + [Step(2)];
  }

  lemma RunningUser(st: State, t: nat)
    requires Inv(st) && 0 < t < |st.threads| && st.threads[t].pc == User
    ensures st.threads[t].sp == SpRunning
  {
    assert ThreadOk(st, t);
  }

  /** Segment 1 starts again, and has to pause at once. */
  lemma StartsAndPauses(st0: State, acts: seq<Action>, st: State) returns (acts': seq<Action>, st': State)
    requires Inv(st) && Leads(st0, acts, st) && |st.threads| == |st.mem.segs| == 4 && WellFormed(st.mem) && st.mutex == 0 && st.pause
    requires st.threads[1].pc == Outside && st.threads[1].signal == SigPause
    ensures Inv(st') && Leads(st0, acts', st') && st'.mem == st.mem && OthersSame(st, st', 1) && st'.mutex == 0 && st'.pause && st'.unique == st.unique
    ensures st'.threads[1].pc == Paused(Starting) && st'.threads[1].status == Regular && st'.threads[1].signal == SigPause
    ensures st'.threads[1].start == st.clock && st'.threads[1].sp == SpRequestRemoved
  {
    hide Inv, Leads;
    var s1 := Then(st0, acts, st, Start(1));
    st' := Then(st0, acts + [Start(1)], s1, Step(1));
    acts' := acts + [Start(1)] + [Step(1)];
  }

  /** Segment 3 reaches a safe point. */
  lemma Pauses(st0: State, acts: seq<Action>, st: State) returns (acts': seq<Action>, st': State)
    requires Inv(st) && Leads(st0, acts, st) && |st.threads| == |st.mem.segs| == 4 && WellFormed(st.mem) && st.mutex == 0 && st.pause
    requires st.threads[3].pc == User && st.threads[3].signal == SigPause
    ensures Inv(st') && Leads(st0, acts', st') && st'.mem == st.mem && OthersSame(st, st', 3) && st'.mutex == 0 && st'.pause && st'.unique == st.unique
    ensures st'.threads[3].sp == SpRequestRemoved && st'.threads[3].signal == SigPause
  {
    hide Inv, Leads;
    var s1 := Then(st0, acts, st, Call(3, Polling));
    st' := Then(st0, acts + [Call(3, Polling)], s1, Step(3));
    acts' := acts + [Call(3, Polling)] + [Step(3)];
  }

  /** Nobody runs any more: segment 2 has the world stopped. */
  lemma WaiterStops(st0: State, acts: seq<Action>, st: State) returns (acts': seq<Action>, st': State)
    requires Inv(st) && Leads(st0, acts, st) && |st.threads| == |st.mem.segs| == 4 && WellFormed(st.mem) && st.mutex == 0 && st.pause && !st.unique
    requires st.threads[1].sp == SpRequestRemoved && st.threads[3].sp == SpRequestRemoved && st.threads[1].signal == SigPause
    requires st.threads[2].pc == WaitingOthers(Committing) && st.threads[2].signal == SigPause
    ensures Inv(st') && Leads(st0, acts', st') && st'.mem == st.mem && |st'.threads| == 4
    ensures st'.threads[1] == st.threads[1].(signal := NoSignal)
    ensures st'.threads[2].pc == Stopped(Committing) && st'.threads[2].signal == NoSignal
    ensures st'.threads[2].start == st.threads[2].start && st'.threads[2].status == st.threads[2].status
  {
    hide Inv, Leads;
    var s1 := Then(st0, acts, st, Step(2));
    assert s1.threads[2].pc == Counting(Committing) && !OthersRunning(s1, 2);
    st' := Then(st0, acts + [Step(2)], s1, Step(2));
    acts' := acts + [Step(2)] + [Step(2)];
  }

  /** Segment 1 starts again and has to pause at once; segment 3 pauses; segment 2
      has the world stopped. */
  lemma CommitterGoesOn(st0: State, acts: seq<Action>, st: State) returns (acts': seq<Action>, st': State)
    requires Inv(st) && Leads(st0, acts, st) && |st.threads| == |st.mem.segs| == 4 && WellFormed(st.mem) && st.mutex == 0 && st.pause && !st.unique
    requires st.threads[1].pc == Outside && st.threads[1].signal == SigPause
    requires st.threads[2].pc == WaitingOthers(Committing) && st.threads[2].signal == SigPause
    requires st.threads[3].pc == User && st.threads[3].signal == SigPause
    ensures Inv(st') && Leads(st0, acts', st') && st'.mem == st.mem && |st'.threads| == 4
    ensures st'.threads[1].pc == Paused(Starting) && st'.threads[1].status == Regular && st'.threads[1].signal == NoSignal
    ensures st'.threads[1].start == st.clock && st'.threads[1].sp == SpRequestRemoved
    ensures st'.threads[2].pc == Stopped(Committing) && st'.threads[2].start == st.threads[2].start && st'.threads[2].status == st.threads[2].status
    ensures st'.threads[2].signal == NoSignal
  {
    hide Inv, Leads, WellFormed;
    var acts1, s1 := StartsAndPauses(st0, acts, st);
    var acts2, s2 := Pauses(st0, acts1, s1);
    acts', st' := WaiterStops(st0, acts2, s2);
  }

  ghost predicate NeedlessConflict(st: State, o: nat) {
    && Inv(st) && |st.threads| == |st.mem.segs| == 4 && WellFormed(st.mem)
    && st.threads[1].pc == Paused(Starting) && st.threads[1].status == Regular && st.threads[1].sp == SpRequestRemoved
    && st.threads[2].pc == Stopped(Committing) && st.threads[2].status == Regular && st.threads[2].signal == NoSignal
    && st.threads[2].start < st.threads[1].start && st.mem.segs[1].log == []
    && Conflict(st, 2, 1, o)
  }

  /** The committer finds the conflict, and aborts the other transaction. */
  lemma KillsStarter(st: State, o: nat) returns (acts: seq<Action>, st': State)
    requires NeedlessConflict(st, o)
    ensures Leads(st, acts, st') && |acts| == 2 && |st'.threads| == 4 && st'.threads[1].killed
  {
    hide Inv, Leads;
    NoActions(st);
    var s1 := Then(st, [], st, Found(2, 1, o));
    st' := Then(st, [] + [Found(2, 1, o)], s1, Step(2));
    acts := [] + [Found(2, 1, o)] + [Step(2)];
  }

  /** Everybody up to the point where the committer has to wait. */
  lemma ThreeStart(st0: State, o: nat) returns (acts: seq<Action>, st: State)
    requires Inv(st0) && Calm(st0) && |st0.threads| == 4 && o < st0.mem.objects && st0.clock == 1
    requires At(st0, 1, Idle, Outside) && At(st0, 2, Idle, Outside) && At(st0, 3, Idle, Outside) && st0.mem.locks[o] == 0
    ensures Inv(st) && Leads(st0, acts, st) && Calm(st) && |st.threads| == 4 && o < st.mem.objects && st.mem.locks[o] == 0
    ensures At(st, 1, Idle, Outside) && At(st, 2, Regular, User) && At(st, 3, Regular, User)
    ensures st.mem.segs[1].markers[o] == st.mem.segs[1].version && st.threads[2].start < st.clock
  {
    hide Inv, Leads;
    NoActions(st0);
    var acts1, s1 := Starts(st0, [], st0, 1);
    assert At(s1, 2, Idle, Outside) && At(s1, 3, Idle, Outside);
    var acts2, s2 := ReadsAndAborts(st0, acts1, s1, o);
    assert At(s2, 2, Idle, Outside) && At(s2, 3, Idle, Outside);
    var acts3, s3 := Starts(st0, acts2, s2, 2);
    acts, st := Starts(st0, acts3, s3, 3);
  }

  lemma InitialCalm(owner: seq<nat>, objects: nat, bytes: seq<int>, o: nat)
    requires |bytes| == |owner| && (forall a :: 0 <= a < |owner| ==> owner[a] < objects) && o < objects
    ensures var st := Initial(3, owner, objects, bytes);
      && Inv(st) && Calm(st) && |st.threads| == 4 && o < st.mem.objects && st.clock == 1
      && At(st, 1, Idle, Outside) && At(st, 2, Idle, Outside) && At(st, 3, Idle, Outside) && st.mem.locks[o] == 0
  {
    InitialInv(3, owner, objects, bytes);
  }

  lemma SegmentEmpty(st: State, t: nat)
    requires Inv(st) && 0 < t < |st.threads| && st.threads[t].pc == Paused(Starting)
    ensures |st.threads| == |st.mem.segs| && st.mem.segs[t].log == [] && st.threads[t].start < st.clock
  {
    assert ThreadOk(st, t);
  }

  /** The state in which the committer finds a conflict with a transaction that has
      read nothing. */
  lemma ReachesConflict(owner: seq<nat>, objects: nat, bytes: seq<int>, o: nat) returns (acts: seq<Action>, st: State)
    requires |bytes| == |owner| && (forall a :: 0 <= a < |owner| ==> owner[a] < objects) && o < objects
    ensures Leads(Initial(3, owner, objects, bytes), acts, st) && NeedlessConflict(st, o)
  {
    hide Inv, Leads, Initial;
    var st0 := Initial(3, owner, objects, bytes);
    InitialCalm(owner, objects, bytes, o);
    var acts1, s1 := ThreeStart(st0, o);
    var acts2, s2 := CommitterWaits(st0, acts1, s1, o);
    acts, st := CommitterGoesOn(st0, acts2, s2);
    SegmentEmpty(st, 1);
  }

  /** A run with three segments in which a transaction that has read nothing yet is
      aborted by a committer, for a marker that the previous transaction of its
      segment left. */
  lemma AbortedForNothing(owner: seq<nat>, objects: nat, bytes: seq<int>, o: nat) returns (states: seq<State>, acts: seq<Action>, i: nat)
    requires |bytes| == |owner| && (forall a :: 0 <= a < |owner| ==> owner[a] < objects) && o < objects
    ensures IsRun(states, acts) && StartsFresh(states, 3, owner, objects, bytes) && i < |acts|
    ensures NeedlessConflict(states[i], o) && ReadSet(states[i], 1) == {} && !MarkersTell(states[i], 1)
    ensures |states[|acts|].threads| == 4 && states[|acts|].threads[1].killed
  {
    hide Inv, Leads, Initial;
    var st0 := Initial(3, owner, objects, bytes);
    var acts1, s1 := ReachesConflict(owner, objects, bytes, o);
    var acts2, s2 := KillsStarter(s1, o);
    states := RunThrough(st0, acts1, s1, acts2, s2);
    acts, i := acts1 + acts2, |acts1|;
  }
}
