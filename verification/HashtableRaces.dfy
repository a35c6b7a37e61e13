/** stm_hashtable_lookup run by any number of threads at once: every access to
    shared memory is one step.  `resize_counter` is counter, lock and pointer to
    the next table in one word.

    Tables stay allocated until a major collection, which runs while no thread is
    inside a lookup.  The building of a bigger table is one step, because nobody
    else can see it before it is published. */
module HashtableRaces {
  import opened Wrappers
  import opened Probing
  import opened Hashtable

  datatype Counter = Open(room: int) | Locked | Next

  datatype Version = Version(items: Items, counter: Counter)

  datatype Pc =
    | Outside
    | Restart(key: nat)
    | Probing(key: nat, at: nat, i: nat, perturb: nat)      // about to read items[i]
    | Missed(key: nat, at: nat, i: nat)                     // about to read resize_counter
    | Grabbing(key: nat, at: nat, i: nat, room: int)        // about to compare-and-swap it
    | Holding(key: nat, at: nat, i: nat, room: int)         // got the lock
    | Adding(key: nat, at: nat, i: nat, room: int)          // about to write items[i]
    | Closing(e: Entry, at: nat, room: int)                 // about to unlock
    | Growing(key: nat, at: nat, room: int)                 // about to set the pointer to the next table
    | Publishing(key: nat, at: nat)                         // about to set hashtable->table

  datatype State = State(
    versions: seq<Version>,   // all tables since the last collection, in order
    current: nat,             // hashtable->table
    threads: seq<Pc>,
    nextId: nat,              // for new entries
    holder: nat,              // the thread that has the lock, |threads| if none (bookkeeping)
    answers: seq<Entry>)      // what lookups returned since the last collection (bookkeeping)

  datatype Action = Call(t: nat, key: nat) | Step(t: nat) | Collect(compact: bool, removable: set<Entry>)

  function Put(st: State, t: nat, pc: Pc): State
    requires t < |st.threads|
  {
    st.(threads := st.threads[t := pc])
  }

  function SetCounter(st: State, at: nat, c: Counter): State
    requires at < |st.versions|
  {
    st.(versions := st.versions[at := st.versions[at].(counter := c)])
  }

  function BiggerCount(n: nat): nat { if n < 50000 then n * 4 else n * 2 }

  ghost predicate Enabled(st: State, a: Action) {
    match a
    case Call(t, key) => t < |st.threads| && st.threads[t].Outside? && key < KEYS
    case Step(t) => t < |st.threads| && !st.threads[t].Outside?
    case Collect(_, _) => forall t :: 0 <= t < |st.threads| ==> st.threads[t].Outside?
  }

  /** The memory that a step needs to exist. */
  ghost predicate Defined(st: State, pc: Pc) {
    && st.current < |st.versions|
    && match pc
       case Outside => true
       case Restart(_) => |st.versions[st.current].items| > 0
       case Probing(_, at, i, _) => at < |st.versions| && i < |st.versions[at].items|
       case Missed(_, at, i) => at < |st.versions|
       case Grabbing(_, at, i, _) => at < |st.versions|
       case Holding(_, at, i, _) => at < |st.versions| && i < |st.versions[at].items|
       case Adding(_, at, i, _) => at < |st.versions| && i < |st.versions[at].items|
       case Closing(_, at, _) => at < |st.versions|
       case Growing(_, at, _) => at < |st.versions| && CanRehash(st.versions[at].items, BiggerCount(|st.versions[at].items|))
       case Publishing(_, at) => at < |st.versions|
  }

  ghost predicate CanRehash(items: Items, size: nat) {
    TableOk(items) && IsSize(size) && size > 0 && 6 * Count(items) < 4 * size + 1
  }

  ghost function NewVersion(items: Items, size: nat, removable: set<Entry>): (v: Version)
    requires CanRehash(items, size)
  {
    var r := Rehashed(items, |items|, size, removable);
    Version(r, Open(4 * size + 1 - 6 * Count(r)))
  }

  /** One step of thread t; None if an assertion fails. */
  ghost function StepOf(st: State, t: nat): Option<State>
    requires t < |st.threads| && Defined(st, st.threads[t])
  {
    match st.threads[t]
    case Outside => Some(st)
    case Restart(key) =>
      Some(Put(st, t, Probing(key, st.current, key % |st.versions[st.current].items|, key)))
    case Probing(key, at, i, perturb) =>
      var items := st.versions[at].items;
      if items[i].None? then Some(Put(st, t, Missed(key, at, i)))
      else if items[i].value.key == key then Some(Put(st, t, Outside).(answers := st.answers + [items[i].value]))
      else Some(Put(st, t, Probing(key, at, Advance(i, perturb, |items|), perturb / 32)))
    case Missed(key, at, i) =>
      var counter := st.versions[at].counter;
      if counter.Open? then Some(Put(st, t, Grabbing(key, at, i, counter.room))) else Some(Put(st, t, Restart(key)))
    case Grabbing(key, at, i, room) =>
      if st.versions[at].counter != Open(room) then Some(Put(st, t, Restart(key)))
      else if at != st.current then None
      else Some(Put(SetCounter(st, at, Locked), t, Holding(key, at, i, room)).(holder := t))
    case Holding(key, at, i, room) =>
      if st.versions[at].items[i].Some? then
        Some(Put(SetCounter(st, at, Open(room)), t, Restart(key)).(holder := |st.threads|))
      else if room > 6 then Some(Put(st, t, Adding(key, at, i, room)))
      else Some(Put(st, t, Growing(key, at, room)))
    case Adding(key, at, i, room) =>
      var e := Entry(st.nextId, key);
      var v := st.versions[at];
      Some(Put(st, t, Closing(e, at, room))
           .(nextId := st.nextId + 1, versions := st.versions[at := v.(items := v.items[i := Some(e)])]))
    case Closing(e, at, room) =>
      Some(Put(SetCounter(st, at, Open(room - 6)), t, Outside).(holder := |st.threads|, answers := st.answers + [e]))
    case Growing(key, at, room) =>
      var items := st.versions[at].items;
      var st1 := SetCounter(st, at, Next);
      Some(Put(st1, t, Publishing(key, at)).(versions := st1.versions + [NewVersion(items, BiggerCount(|items|), {})]))
    case Publishing(key, at) =>
      Some(Put(st, t, Restart(key)).(current := |st.versions| - 1, holder := |st.threads|))
  }

  /** The count of _stm_compact_hashtable. */
  function CompactCount(count: nat, n6: int): (r: nat)
    requires count > 0
    ensures r >= count
    decreases n6 - 4 * count
  {
    if 4 * count < n6 then CompactCount(2 * count, n6) else count
  }

  /** A major collection frees all older tables; it may also replace the table by
      one of the right size without the removable entries. */
  ghost function CollectOf(st: State, compact: bool, removable: set<Entry>): Option<State>
    requires st.current < |st.versions|
  {
    var v := st.versions[st.current];
    var size := CompactCount(INITIAL_HASHTABLE_SIZE, 6 * Count(v.items));
    if !v.counter.Open? then None
    else if !compact then Some(st.(versions := [v], current := 0, answers := []))
    else if !CanRehash(v.items, size) || size > |v.items| then None
    else Some(st.(versions := [NewVersion(v.items, size, removable)], current := 0, answers := []))
  }

  ghost function Apply(st: State, a: Action): Option<State>
    requires Enabled(st, a) && (a.Step? ==> Defined(st, st.threads[a.t])) && st.current < |st.versions|
  {
    match a
    case Call(t, key) => Some(Put(st, t, Restart(key)))
    case Step(t) => StepOf(st, t)
    case Collect(compact, removable) => CollectOf(st, compact, removable)
  }

  // ----- the invariant

  function Last(st: State): nat { if |st.versions| == 0 then 0 else |st.versions| - 1 }

  ghost predicate VersionOk(st: State, at: nat) {
    && at < |st.versions|
    && var v := st.versions[at];
    && TableOk(v.items) && HasFree(v.items) && |v.items| >= INITIAL_HASHTABLE_SIZE
    && Entries(v.items) <= Entries(st.versions[Last(st)].items)
    && (v.counter.Open? ==> Room(v.items, v.counter.room))
    && (at < Last(st) <==> v.counter.Next?)
  }

  ghost predicate InTable(st: State, at: nat, key: nat, i: nat, n: nat) {
    && at <= st.current < |st.versions| && key < KEYS && |st.versions[at].items| > 0
    && i == Slot(key, n, |st.versions[at].items|) && Probed(st.versions[at].items, key, n)
  }

  ghost predicate SearchedTo(st: State, at: nat, key: nat, i: nat) {
    exists n: nat :: InTable(st, at, key, i, n)
  }

  ghost predicate HasLock(st: State, t: nat, at: nat) {
    st.holder == t && at == st.current == Last(st) && at < |st.versions| && st.versions[at].counter == Locked
  }

  ghost predicate ThreadOk(st: State, t: nat)
    requires t < |st.threads|
  {
    match st.threads[t]
    case Outside => true
    case Restart(key) => key < KEYS
    case Probing(key, at, i, perturb) =>
      exists n: nat :: InTable(st, at, key, i, n) && perturb == Perturb(key, n)
    case Missed(key, at, i) => SearchedTo(st, at, key, i)
    case Grabbing(key, at, i, room) => SearchedTo(st, at, key, i)
    case Holding(key, at, i, room) => SearchedTo(st, at, key, i) && HasLock(st, t, at) && Room(st.versions[at].items, room)
    case Adding(key, at, i, room) =>
      && SearchedTo(st, at, key, i) && HasLock(st, t, at) && Room(st.versions[at].items, room) && room > 6
      && i < |st.versions[at].items| && st.versions[at].items[i].None?
    case Closing(e, at, room) =>
      HasLock(st, t, at) && Room(st.versions[at].items, room - 6) && e in Entries(st.versions[at].items)
    case Growing(key, at, room) => key < KEYS && HasLock(st, t, at) && Room(st.versions[at].items, room)
    case Publishing(key, at) => key < KEYS && st.holder == t && at == st.current && st.current + 1 == Last(st)
  }

  ghost predicate TablesOk(st: State) {
    && st.current < |st.versions|
    && (forall at :: 0 <= at < |st.versions| ==> VersionOk(st, at))
    && (forall e :: e in st.answers ==> e in Entries(st.versions[Last(st)].items))
  }

  predicate InCriticalSection(pc: Pc) {
    pc.Holding? || pc.Adding? || pc.Closing? || pc.Growing? || pc.Publishing?
  }

  ghost predicate LockOk(st: State) {
    && st.holder <= |st.threads| && st.current <= Last(st)
    && (st.current < Last(st) ==>
        (st.holder < |st.threads| && st.threads[st.holder].Publishing? && st.versions[Last(st)].counter.Open?))
    && (st.holder < |st.threads| ==> InCriticalSection(st.threads[st.holder]))
    && (st.holder == |st.threads| ==> |st.versions| > 0 && st.versions[Last(st)].counter.Open?)
  }

  ghost predicate Inv(st: State) {
    TablesOk(st) && LockOk(st) && forall t :: 0 <= t < |st.threads| ==> ThreadOk(st, t)
  }

  // ----- every step keeps it

  /** Tables only grow: entries stay where they are, and slots that some search
      passed stay passed. */
  ghost predicate Grown(items: Items, items': Items) {
    |items| == |items'| && forall s :: 0 <= s < |items| && items[s].Some? ==> items'[s] == items[s]
  }

  lemma SearchStays(st: State, st': State, at: nat, key: nat, i: nat, n: nat)
    requires InTable(st, at, key, i, n) && st.current <= st'.current < |st'.versions| && |st.versions| <= |st'.versions|
    requires Grown(st.versions[at].items, st'.versions[at].items)
    ensures InTable(st', at, key, i, n)
  {
  }

  /** What one thread does keeps what is known about another. */
  ghost predicate Undisturbed(st: State, st': State, t: nat) {
    && |st'.threads| == |st.threads| && st.current <= st'.current < |st'.versions| && |st.versions| <= |st'.versions|
    && (forall at :: 0 <= at < |st.versions| ==> Grown(st.versions[at].items, st'.versions[at].items))
    && (forall u :: 0 <= u < |st.threads| && u != t ==> st'.threads[u] == st.threads[u])
  }

  lemma OthersKept(st: State, st': State, t: nat, u: nat)
    requires Undisturbed(st, st', t) && u < |st.threads| && u != t && ThreadOk(st, u)
    requires (st.versions == st'.versions && st.current == st'.current && st.holder == st'.holder) || st.holder != u
    ensures ThreadOk(st', u)
  {
    match st.threads[u]
    case Probing(key, at, i, perturb) =>
      var n: nat :| InTable(st, at, key, i, n) && perturb == Perturb(key, n);
      SearchStays(st, st', at, key, i, n);
    case Missed(key, at, i) =>
      var n: nat :| InTable(st, at, key, i, n);
      SearchStays(st, st', at, key, i, n);
    case Grabbing(key, at, i, room) =>
      var n: nat :| InTable(st, at, key, i, n);
      SearchStays(st, st', at, key, i, n);
    case Holding(key, at, i, room) =>
      var n: nat :| InTable(st, at, key, i, n);
      SearchStays(st, st', at, key, i, n);
    case Adding(key, at, i, room) =>
      var n: nat :| InTable(st, at, key, i, n);
      SearchStays(st, st', at, key, i, n);
    case _ =>
  }

  /** Nobody holds the lock of an open table. */
  lemma OpenIsFree(st: State, u: nat)
    requires Inv(st) && u < |st.threads| && st.versions[Last(st)].counter.Open? && st.current == Last(st)
    ensures !InCriticalSection(st.threads[u]) && st.holder != u
  {
    assert ThreadOk(st, u);
  }

  /** A step that changes nothing but the thread itself. */
  lemma PrivateStepKeeps(st: State, t: nat, pc: Pc, answers: seq<Entry>)
    requires Inv(st) && t < |st.threads| && !InCriticalSection(st.threads[t])
    requires ThreadOk(Put(st, t, pc).(answers := answers), t) && !InCriticalSection(pc)
    requires forall e :: e in answers ==> e in Entries(st.versions[Last(st)].items)
    ensures Inv(Put(st, t, pc).(answers := answers))
  {
    var st' := Put(st, t, pc).(answers := answers);
    forall u | 0 <= u < |st.threads| ensures ThreadOk(st', u) {
      if u != t { OthersKept(st, st', t, u); }
    }
    forall k | 0 <= k < |st'.versions| ensures VersionOk(st', k) { assert VersionOk(st, k); }
  }

  lemma RestartKeeps(st: State, t: nat)
    requires Inv(st) && t < |st.threads| && st.threads[t].Restart?
    ensures Defined(st, st.threads[t]) && StepOf(st, t).Some? && Inv(StepOf(st, t).value)
  {
    assert ThreadOk(st, t) && VersionOk(st, st.current);
    var key, size := st.threads[t].key, |st.versions[st.current].items|;
    var st' := StepOf(st, t).value;
    assert InTable(st', st.current, key, key % size, 0) && key == Perturb(key, 0);
    PrivateStepKeeps(st, t, st'.threads[t], st.answers);
  }

  lemma ProbeKeeps(st: State, t: nat)
    requires Inv(st) && t < |st.threads| && st.threads[t].Probing?
    ensures Defined(st, st.threads[t]) && StepOf(st, t).Some? && Inv(StepOf(st, t).value)
  {
    assert ThreadOk(st, t);
    var key, at, i, perturb := st.threads[t].key, st.threads[t].at, st.threads[t].i, st.threads[t].perturb;
    assert VersionOk(st, at);
    var items := st.versions[at].items;
    var n: nat :| InTable(st, at, key, i, n) && perturb == Perturb(key, n);
    var st' := StepOf(st, t).value;
    if items[i].None? {
      assert InTable(st', at, key, i, n);
    } else if items[i].value.key == key {
      assert items[i].value in Entries(items);
    } else {
      assert InTable(st', at, key, Advance(i, perturb, |items|), n + 1);
      assert perturb / 32 == Perturb(key, n + 1);
    }
    PrivateStepKeeps(st, t, st'.threads[t], st'.answers);
  }

  lemma MissKeeps(st: State, t: nat)
    requires Inv(st) && t < |st.threads| && st.threads[t].Missed?
    ensures Defined(st, st.threads[t]) && StepOf(st, t).Some? && Inv(StepOf(st, t).value)
  {
    assert ThreadOk(st, t);
    var pc := st.threads[t];
    var n: nat :| InTable(st, pc.at, pc.key, pc.i, n);
    var st' := StepOf(st, t).value;
    assert InTable(st', pc.at, pc.key, pc.i, n);
    PrivateStepKeeps(st, t, st'.threads[t], st.answers);
  }

  lemma GrabKeeps(st: State, t: nat)
    requires Inv(st) && t < |st.threads| && st.threads[t].Grabbing?
    ensures Defined(st, st.threads[t]) && StepOf(st, t).Some? && Inv(StepOf(st, t).value)
  {
    assert ThreadOk(st, t);
    var at := st.threads[t].at;
    assert VersionOk(st, at);
    if st.versions[at].counter.Open? { OpenIsLast(st, at); }
    var st' := StepOf(st, t).value;
    forall u | 0 <= u < |st.threads| ensures ThreadOk(st', u) {
      if u != t {
        if st.versions[at].counter.Open? { OpenIsFree(st, u); }
        OthersKept(st, st', t, u);
      } else {
        var pc := st.threads[t];
        var n: nat :| InTable(st, at, pc.key, pc.i, n);
        SearchStays(st, st', at, pc.key, pc.i, n);
      }
    }
    forall k | 0 <= k < |st'.versions| ensures VersionOk(st', k) { assert VersionOk(st, k); }
  }

  lemma OpenIsLast(st: State, at: nat)
    requires Inv(st) && at <= st.current && st.versions[at].counter.Open?
    ensures at == st.current == Last(st)
  {
    assert VersionOk(st, at);
  }

  /** A step of the thread that has the lock. */
  lemma LockStepKeeps(st: State, st': State, t: nat)
    requires Inv(st) && t < |st.threads| && st.holder == t && Undisturbed(st, st', t)
    requires TablesOk(st') && LockOk(st') && ThreadOk(st', t)
    ensures Inv(st')
  {
    forall u | 0 <= u < |st.threads| ensures ThreadOk(st', u) {
      if u != t { OthersKept(st, st', t, u); }
    }
  }

  /** Changing only the counter of the last table. */
  lemma CounterStepKeeps(st: State, st': State, at: nat)
    requires Inv(st) && at == Last(st) == st.current && !st.versions[at].counter.Next?
    requires |st'.versions| == |st.versions| && st'.current == st.current && !st'.versions[at].counter.Next?
    requires st'.versions == st.versions[at := st.versions[at].(counter := st'.versions[at].counter)]
    requires st'.versions[at].counter.Open? ==> Room(st.versions[at].items, st'.versions[at].counter.room)
    requires forall e :: e in st'.answers ==> e in Entries(st.versions[at].items)
    ensures TablesOk(st')
  {
    forall k | 0 <= k < |st'.versions| ensures VersionOk(st', k) {
      assert VersionOk(st, k) && VersionOk(st, at);
    }
  }

  lemma HoldKeeps(st: State, t: nat)
    requires Inv(st) && t < |st.threads| && st.threads[t].Holding?
    ensures Defined(st, st.threads[t]) && StepOf(st, t).Some? && Inv(StepOf(st, t).value)
  {
    assert ThreadOk(st, t);
    var pc := st.threads[t];
    assert VersionOk(st, pc.at);
    var n: nat :| InTable(st, pc.at, pc.key, pc.i, n);
    var st' := StepOf(st, t).value;
    assert InTable(st', pc.at, pc.key, pc.i, n);
    CounterStepKeeps(st, st', pc.at);
    LockStepKeeps(st, st', t);
  }

  lemma CloseKeeps(st: State, t: nat)
    requires Inv(st) && t < |st.threads| && st.threads[t].Closing?
    ensures Defined(st, st.threads[t]) && StepOf(st, t).Some? && Inv(StepOf(st, t).value)
  {
    assert ThreadOk(st, t);
    var st' := StepOf(st, t).value;
    CounterStepKeeps(st, st', st.threads[t].at);
    LockStepKeeps(st, st', t);
  }

  lemma AddKeeps(st: State, t: nat)
    requires Inv(st) && t < |st.threads| && st.threads[t].Adding?
    ensures Defined(st, st.threads[t]) && StepOf(st, t).Some? && Inv(StepOf(st, t).value)
  {
    assert ThreadOk(st, t);
    var pc := st.threads[t];
    var items := st.versions[pc.at].items;
    assert VersionOk(st, pc.at);
    var n: nat :| InTable(st, pc.at, pc.key, pc.i, n);
    var e := Entry(st.nextId, pc.key);
    FillKeeps(items, e, n);
    NotFull(items[pc.i := Some(e)]);
    var st' := StepOf(st, t).value;
    assert st'.versions[pc.at].items == items[pc.i := Some(e)];
    forall k | 0 <= k < |st'.versions| ensures VersionOk(st', k) { assert VersionOk(st, k); }
    LockStepKeeps(st, st', t);
  }

  /** There is always enough room to copy everything into a bigger table. */
  lemma BiggerFits(items: Items, room: int)
    requires TableOk(items) && Room(items, room) && |items| >= INITIAL_HASHTABLE_SIZE
    ensures CanRehash(items, BiggerCount(|items|)) && BiggerCount(|items|) >= INITIAL_HASHTABLE_SIZE
    ensures var v := NewVersion(items, BiggerCount(|items|), {});
      Room(v.items, v.counter.room) && TableOk(v.items) && HasFree(v.items) && Entries(v.items) == Entries(items) && |v.items| == BiggerCount(|items|)
  {
    Bigger(|items|);
    assert items[..|items|] == items;
    var v := NewVersion(items, BiggerCount(|items|), {});
    RoomIsFree(v.items, v.counter.room);
  }

  lemma GrowKeeps(st: State, t: nat)
    requires Inv(st) && t < |st.threads| && st.threads[t].Growing?
    ensures Defined(st, st.threads[t]) && StepOf(st, t).Some? && Inv(StepOf(st, t).value)
  {
    assert ThreadOk(st, t);
    var pc := st.threads[t];
    assert VersionOk(st, pc.at);
    var items := st.versions[pc.at].items;
    BiggerFits(items, pc.room);
    var st' := StepOf(st, t).value;
    assert Entries(st'.versions[Last(st')].items) == Entries(items);
    forall k | 0 <= k < |st'.versions| ensures VersionOk(st', k) {
      if k < |st.versions| { assert VersionOk(st, k); }
    }
    LockStepKeeps(st, st', t);
  }

  lemma PublishKeeps(st: State, t: nat)
    requires Inv(st) && t < |st.threads| && st.threads[t].Publishing?
    ensures Defined(st, st.threads[t]) && StepOf(st, t).Some? && Inv(StepOf(st, t).value)
  {
    assert ThreadOk(st, t);
    var st' := StepOf(st, t).value;
    forall k | 0 <= k < |st'.versions| ensures VersionOk(st', k) { assert VersionOk(st, k); }
    LockStepKeeps(st, st', t);
  }

  lemma StepKeeps(st: State, t: nat)
    requires Inv(st) && Enabled(st, Step(t))
    ensures Defined(st, st.threads[t]) && StepOf(st, t).Some? && Inv(StepOf(st, t).value)
  {
    match st.threads[t]
    case Restart(_) => RestartKeeps(st, t);
    case Probing(_, _, _, _) => ProbeKeeps(st, t);
    case Missed(_, _, _) => MissKeeps(st, t);
    case Grabbing(_, _, _, _) => GrabKeeps(st, t);
    case Holding(_, _, _, _) => HoldKeeps(st, t);
    case Adding(_, _, _, _) => AddKeeps(st, t);
    case Closing(_, _, _) => CloseKeeps(st, t);
    case Growing(_, _, _) => GrowKeeps(st, t);
    case Publishing(_, _) => PublishKeeps(st, t);
  }

  lemma CallKeeps(st: State, t: nat, key: nat)
    requires Inv(st) && Enabled(st, Call(t, key))
    ensures Inv(Put(st, t, Restart(key)))
  {
    var st' := Put(st, t, Restart(key));
    forall u | 0 <= u < |st.threads| ensures ThreadOk(st', u) {
      if u != t { OthersKept(st, st', t, u); }
    }
    forall k | 0 <= k < |st'.versions| ensures VersionOk(st', k) { assert VersionOk(st, k); }
    if st.holder < |st.threads| { assert ThreadOk(st, st.holder); }
  }

  /** The count that compaction chooses is the smallest power of two that fits. */
  lemma CompactFits(items: Items, room: int, count: nat)
    requires TableOk(items) && Room(items, room) && IsSize(count) && INITIAL_HASHTABLE_SIZE <= count <= |items|
    ensures var size := CompactCount(count, 6 * Count(items)); CanRehash(items, size) && count <= size <= |items|
    decreases |items| - count
  {
    if 4 * count < 6 * Count(items) {
      Doubled(count, |items|);
      Bigger(count);
      CompactFits(items, room, 2 * count);
    }
  }

  lemma CompactedOk(items: Items, room: int, removable: set<Entry>)
    requires TableOk(items) && HasFree(items) && |items| >= INITIAL_HASHTABLE_SIZE && Room(items, room)
    ensures var size := CompactCount(INITIAL_HASHTABLE_SIZE, 6 * Count(items));
      CanRehash(items, size) && size <= |items| && OnlyVersion(NewVersion(items, size, removable))
  {
    assert Pow2(3) == INITIAL_HASHTABLE_SIZE;
    CompactFits(items, room, INITIAL_HASHTABLE_SIZE);
    assert items[..|items|] == items;
    var v := NewVersion(items, CompactCount(INITIAL_HASHTABLE_SIZE, 6 * Count(items)), removable);
    RoomIsFree(v.items, v.counter.room);
  }

  /** The only table there is. */
  ghost predicate OnlyVersion(v: Version) {
    TableOk(v.items) && HasFree(v.items) && |v.items| >= INITIAL_HASHTABLE_SIZE && v.counter.Open? && Room(v.items, v.counter.room)
  }

  lemma AloneIsOk(st: State, v: Version)
    requires st.versions == [v] && OnlyVersion(v) && st.current == 0 && st.answers == [] && st.holder == |st.threads|
    requires forall t :: 0 <= t < |st.threads| ==> st.threads[t].Outside?
    ensures Inv(st)
  {
    assert VersionOk(st, 0);
  }

  lemma CollectKeeps(st: State, compact: bool, removable: set<Entry>)
    requires Inv(st) && Enabled(st, Collect(compact, removable))
    ensures CollectOf(st, compact, removable).Some? && Inv(CollectOf(st, compact, removable).value)
  {
    hide ThreadOk, NewVersion, CanRehash;
    assert VersionOk(st, st.current);
    var v := st.versions[st.current];
    assert st.holder == |st.threads| && OnlyVersion(v);
    CompactedOk(v.items, v.counter.room, removable);
    var st' := CollectOf(st, compact, removable).value;
    AloneIsOk(st', st'.versions[0]);
  }

  lemma ActionKeeps(st: State, a: Action)
    requires Inv(st) && Enabled(st, a)
    ensures (a.Step? ==> Defined(st, st.threads[a.t])) && Apply(st, a).Some? && Inv(Apply(st, a).value)
  {
    match a
    case Call(t, key) => CallKeeps(st, t, key);
    case Step(t) => StepKeeps(st, t);
    case Collect(compact, removable) => CollectKeeps(st, compact, removable);
  }

  // ----- runs

  ghost predicate Follows(st: State, a: Action, st': State) {
    && Enabled(st, a) && (a.Step? ==> Defined(st, st.threads[a.t])) && st.current < |st.versions|
    && Apply(st, a) == Some(st')
  }

  ghost predicate IsRun(states: seq<State>, acts: seq<Action>) {
    |states| == |acts| + 1 && forall i :: 0 <= i < |acts| ==> Follows(states[i], acts[i], states[i + 1])
  }

  /** stm_hashtable_create */
  ghost predicate Created(st: State) {
    && st.versions == [Version(seq(INITIAL_HASHTABLE_SIZE, _ => None), Open(4 * INITIAL_HASHTABLE_SIZE + 1))]
    && st.current == 0 && st.answers == [] && st.holder == |st.threads|
    && forall t :: 0 <= t < |st.threads| ==> st.threads[t] == Outside
  }

  lemma CreatedInv(st: State)
    requires Created(st)
    ensures Inv(st)
  {
    assert Pow2(3) == INITIAL_HASHTABLE_SIZE;
    EmptyTable(st.versions[0].items);
    RoomIsFree(st.versions[0].items, 4 * INITIAL_HASHTABLE_SIZE + 1);
    assert VersionOk(st, 0);
  }

  lemma {:induction false} RunKeepsInv(states: seq<State>, acts: seq<Action>, i: nat)
    requires IsRun(states, acts) && Created(states[0]) && i < |states|
    ensures Inv(states[i])
  {
    if i == 0 {
      CreatedInv(states[0]);
    } else {
      RunKeepsInv(states, acts, i - 1);
      assert Follows(states[i - 1], acts[i - 1], states[i - 1 + 1]);
      ActionKeeps(states[i - 1], acts[i - 1]);
    }
  }

  /** No assertion ever fails, and no access is out of bounds. */
  lemma NeverFails(states: seq<State>, acts: seq<Action>, i: nat, a: Action)
    requires IsRun(states, acts) && Created(states[0]) && i < |states| && Enabled(states[i], a)
    ensures a.Step? ==> Defined(states[i], states[i].threads[a.t])
    ensures states[i].current < |states[i].versions| && Apply(states[i], a).Some?
  {
    RunKeepsInv(states, acts, i);
    ActionKeeps(states[i], a);
  }

  /** No table ever has two entries for one key, and whatever is stored is found by
      a search for its key. */
  lemma StoredOnceAndFindable(states: seq<State>, acts: seq<Action>, i: nat, at: nat, e: Entry, f: Entry)
    requires IsRun(states, acts) && Created(states[0]) && i < |states| && at < |states[i].versions|
    requires e in Entries(states[i].versions[at].items) && f in Entries(states[i].versions[at].items)
    ensures e.key == f.key ==> e == f
    ensures var items := states[i].versions[at].items;
      && |items| > 0 && IsSize(|items|) && HasFree(items) && e.key < KEYS
      && items[Slot(e.key, Stop(items, e.key, 0), |items|)] == Some(e)
  {
    RunKeepsInv(states, acts, i);
    var st := states[i];
    assert VersionOk(st, at);
    var items := st.versions[at].items;
    if e.key == f.key { SameKeySameEntry(items, e, f); }
    var s :| 0 <= s < |items| && items[s] == Some(e);
    var n: nat :| Placed(items, s, n);
    SearchesAgree(items, e.key, n, Stop(items, e.key, 0));
  }

  /** All lookups of a key return the same entry, however they race, as long as no
      collection comes between. */
  lemma SameAnswer(states: seq<State>, acts: seq<Action>, i: nat, e: Entry, f: Entry)
    requires IsRun(states, acts) && Created(states[0]) && i < |states|
    requires e in states[i].answers && f in states[i].answers && e.key == f.key
    ensures e == f
  {
    RunKeepsInv(states, acts, i);
    var st := states[i];
    assert VersionOk(st, Last(st));
    SameKeySameEntry(st.versions[Last(st)].items, e, f);
  }

  /** The key that a thread looks for. */
  function Sought(pc: Pc): nat
    requires !pc.Outside?
  {
    if pc.Closing? then pc.e.key else pc.key
  }

  lemma StillSought(st: State, a: Action, st': State, t: nat)
    requires Follows(st, a, st') && t < |st.threads| && !st.threads[t].Outside?
    ensures t < |st'.threads|
    ensures !st'.threads[t].Outside? ==> Sought(st'.threads[t]) == Sought(st.threads[t])
    ensures st'.threads[t].Outside? ==> |st'.answers| == |st.answers| + 1 && st'.answers[|st.answers|].key == Sought(st.threads[t])
  {
    hide StepOf, CollectOf, Defined;
    if a.Step? {
      OneMoves(st, a.t, st');
      if a.t == t { SoughtInStep(st, t, st'); }
    }
  }

  lemma OneMoves(st: State, u: nat, st': State)
    requires u < |st.threads| && Defined(st, st.threads[u]) && StepOf(st, u) == Some(st')
    ensures |st'.threads| == |st.threads| && forall v :: 0 <= v < |st.threads| && v != u ==> st'.threads[v] == st.threads[v]
  {
    hide CanRehash, NewVersion, BiggerCount, Advance;
  }

  lemma SoughtInStep(st: State, t: nat, st': State)
    requires t < |st.threads| && Defined(st, st.threads[t]) && StepOf(st, t) == Some(st') && !st.threads[t].Outside? && t < |st'.threads|
    ensures if st'.threads[t].Outside? then |st'.answers| == |st.answers| + 1 && st'.answers[|st.answers|].key == Sought(st.threads[t])
      else Sought(st'.threads[t]) == Sought(st.threads[t])
  {
    hide CanRehash, NewVersion, BiggerCount, Advance;
  }

  lemma {:induction false} SoughtInRun(states: seq<State>, acts: seq<Action>, i: nat, j: nat, t: nat, key: nat)
    requires IsRun(states, acts) && Created(states[0]) && i < j < |states| && acts[i] == Call(t, key)
    requires forall k :: i < k <= j ==> t < |states[k].threads| && !states[k].threads[t].Outside?
    ensures Sought(states[j].threads[t]) == key
  {
    if j == i + 1 {
      assert Follows(states[i], acts[i], states[j]);
    } else {
      SoughtInRun(states, acts, i, j - 1, t, key);
      assert Follows(states[j - 1], acts[j - 1], states[j]);
      StillSought(states[j - 1], acts[j - 1], states[j], t);
    }
  }

  /** A lookup, whatever others do until it returns, answers with an entry of its
      key that is in the table then. */
  lemma LookupAnswers(states: seq<State>, acts: seq<Action>, i: nat, j: nat, t: nat, key: nat)
    requires IsRun(states, acts) && Created(states[0]) && i + 1 < j < |states| && acts[i] == Call(t, key)
    requires forall k :: i < k < j ==> t < |states[k].threads| && !states[k].threads[t].Outside?
    requires t < |states[j].threads| && states[j].threads[t].Outside?
    ensures |states[j].answers| > 0 && |states[j].versions| > 0
    ensures var e := states[j].answers[|states[j].answers| - 1];
      e.key == key && e in Entries(states[j].versions[Last(states[j])].items)
  {
    SoughtInRun(states, acts, i, j - 1, t, key);
    RunKeepsInv(states, acts, j);
    assert Follows(states[j - 1], acts[j - 1], states[j]);
    StillSought(states[j - 1], acts[j - 1], states[j], t);
  }

  /** A search never goes round more than once: it ends within the size of the
      table plus 13 steps. */
  lemma SearchIsShort(states: seq<State>, acts: seq<Action>, i: nat, t: nat, n: nat)
    requires IsRun(states, acts) && Created(states[0]) && i < |states| && t < |states[i].threads| && states[i].threads[t].Probing?
    requires var pc := states[i].threads[t]; InTable(states[i], pc.at, pc.key, pc.i, n)
    ensures n < PERTURB_STEPS + |states[i].versions[states[i].threads[t].at].items|
  {
    RunKeepsInv(states, acts, i);
    var pc := states[i].threads[t];
    assert VersionOk(states[i], pc.at);
    SearchEnds(states[i].versions[pc.at].items, pc.key, n);
  }

  /** Two threads are never between taking and releasing the lock at once. */
  lemma OneHolder(states: seq<State>, acts: seq<Action>, i: nat, t: nat, u: nat)
    requires IsRun(states, acts) && Created(states[0]) && i < |states| && t < |states[i].threads| && u < |states[i].threads|
    requires InCriticalSection(states[i].threads[t]) && InCriticalSection(states[i].threads[u])
    ensures t == u
  {
    RunKeepsInv(states, acts, i);
    assert ThreadOk(states[i], t) && ThreadOk(states[i], u);
  }

  /** What was stored stays stored: only a collection drops entries, and only
      removable ones. */
  lemma StoredStays(st: State, a: Action, st': State, e: Entry)
    requires Inv(st) && Follows(st, a, st') && e in Entries(st.versions[Last(st)].items)
    requires a.Collect? ==> e !in a.removable
    ensures e in Entries(st'.versions[Last(st')].items)
  {
    ActionKeeps(st, a);
    if a.Step? && st.threads[a.t].Adding? {
      assert ThreadOk(st, a.t);
      FillEntries(st.versions[st.threads[a.t].at].items, st.threads[a.t].i, Entry(st.nextId, st.threads[a.t].key));
    } else if a.Step? && st.threads[a.t].Growing? {
      var at := st.threads[a.t].at;
      assert ThreadOk(st, a.t) && VersionOk(st, at) && VersionOk(st', at);
    } else if a.Collect? {
      assert forall t :: 0 <= t < |st.threads| ==> !InCriticalSection(st.threads[t]);
      var items := st.versions[st.current].items;
      assert items[..|items|] == items;
    }
  }
}
