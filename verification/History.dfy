/** What a transaction did to memory, as a log of loads and stores, and what
    it means to run such a log alone. */
module History {
  import opened Wrappers

  datatype Op = Load(addr: nat, value: int) | Store(addr: nat, value: int)

  /** Runs `log` by itself on memory `m`.  Every load must find the value it
      recorded; `None` says that some load would have found another one. */
  function Replay(log: seq<Op>, m: seq<int>): (r: Option<seq<int>>)
    ensures r.Some? ==> |r.value| == |m|
  {
    if log == [] then Some(m) else
      match Replay(log[..|log| - 1], m)
      case None => None
      case Some(now) =>
        match log[|log| - 1]
        case Load(a, v) => if a < |now| && now[a] == v then Some(now) else None
        case Store(a, v) => if a < |now| then Some(now[a := v]) else None
  }

  /** Runs whole transactions one after the other. */
  function ReplayAll(logs: seq<seq<Op>>, m: seq<int>): (r: Option<seq<int>>)
    ensures r.Some? ==> |r.value| == |m|
  {
    if logs == [] then Some(m) else
      match ReplayAll(logs[..|logs| - 1], m)
      case None => None
      case Some(now) => Replay(logs[|logs| - 1], now)
  }

  ghost predicate Touches(log: seq<Op>, a: nat) {
    exists i :: 0 <= i < |log| && log[i].addr == a
  }

  lemma FrontTouches(log: seq<Op>, a: nat)
    requires log != []
    ensures Touches(log, a) <==> Touches(log[..|log| - 1], a) || log[|log| - 1].addr == a
  {
    var front := log[..|log| - 1];
    if Touches(front, a) {
      var i :| 0 <= i < |front| && front[i].addr == a;
      assert log[i].addr == a;
    }
    if Touches(log, a) {
      var i :| 0 <= i < |log| && log[i].addr == a;
      if i < |front| { assert front[i].addr == a; }
    }
  }

  /** A log that never mentions an address leaves it alone. */
  lemma {:induction false} ReplayLeavesUntouched(log: seq<Op>, m: seq<int>, a: nat)
    requires Replay(log, m).Some?
    requires a < |m| && !Touches(log, a)
    ensures Replay(log, m).value[a] == m[a]
  {
    if log != [] {
      FrontTouches(log, a);
      ReplayLeavesUntouched(log[..|log| - 1], m, a);
    }
  }

  /** A log cannot tell two memories apart when they agree on what it touches:
      it succeeds on both, and writes the same values in both. */
  lemma {:induction false} ReplayFrame(log: seq<Op>, m: seq<int>, m': seq<int>)
    requires |m| == |m'|
    requires forall a :: 0 <= a < |m| && Touches(log, a) ==> m[a] == m'[a]
    requires Replay(log, m).Some?
    ensures Replay(log, m').Some?
    ensures forall a :: 0 <= a < |m| && Touches(log, a) ==> Replay(log, m').value[a] == Replay(log, m).value[a]
  {
    if log != [] {
      var front, last := log[..|log| - 1], log[|log| - 1];
      forall a { FrontTouches(log, a); }
      ReplayFrame(front, m, m');
      var r, r' := Replay(front, m).value, Replay(front, m').value;
      forall a | 0 <= a < |m| && Touches(log, a) ensures r[a] == r'[a] {
        if !Touches(front, a) {
          ReplayLeavesUntouched(front, m, a);
          ReplayLeavesUntouched(front, m', a);
        }
      }
    }
  }

  lemma ReplayAppend(log: seq<Op>, op: Op, m: seq<int>)
    ensures Replay(log + [op], m) ==
            match Replay(log, m)
            case None => None
            case Some(now) =>
              match op
              case Load(a, v) => if a < |now| && now[a] == v then Some(now) else None
              case Store(a, v) => if a < |now| then Some(now[a := v]) else None
  {
    assert (log + [op])[..|log|] == log;
  }

  lemma ReplayAllAppend(logs: seq<seq<Op>>, log: seq<Op>, m: seq<int>)
    ensures ReplayAll(logs + [log], m) ==
            match ReplayAll(logs, m)
            case None => None
            case Some(now) => Replay(log, now)
  {
    assert (logs + [log])[..|logs|] == logs;
  }

  /** A load that comes before every store to its address returned the value
      that was in memory when the log started. */
  lemma {:induction false} FirstLoadsSeeStart(log: seq<Op>, m: seq<int>, i: nat)
    requires Replay(log, m).Some?
    requires i < |log| && log[i].Load?
    requires forall j :: 0 <= j < i && log[j].Store? ==> log[j].addr != log[i].addr
    ensures log[i].addr < |m| && log[i].value == m[log[i].addr]
  {
    var front := log[..|log| - 1];
    if i < |log| - 1 {
      assert front[i] == log[i];
      FirstLoadsSeeStart(front, m, i);
    } else {
      StoresOnlyChange(front, m, log[i].addr);
    }
  }

  lemma {:induction false} StoresOnlyChange(log: seq<Op>, m: seq<int>, a: nat)
    requires Replay(log, m).Some?
    requires a < |m| && forall j :: 0 <= j < |log| && log[j].Store? ==> log[j].addr != a
    ensures Replay(log, m).value[a] == m[a]
  {
    if log != [] {
      assert log[|log| - 1].Store? ==> log[|log| - 1].addr != a;
      StoresOnlyChange(log[..|log| - 1], m, a);
    }
  }
}
