/** Major collection: gcpage.c and finalizer.c.

    During a major collection the world is stopped, nothing but the marks in
    write_locks and the lists of objects with finalizers changes.  Every segment
    has its own view of the objects.  Object 0 is NULL. */
module Collection {
  import opened Graphs

  const VISITED: nat := 255
  const ORDER_1: nat := 253
  const ORDER_2: nat := 254

  /** The run of the finalizer phase: states and lists before, between its two
      halves, and after. */
  datatype Ordering = Ordering(
    m0: seq<nat>, m1: seq<nat>, m2: seq<nat>,
    lists0: seq<seq<nat>>, lists1: seq<seq<nat>>, lists2: seq<seq<nat>>,
    run0: seq<seq<nat>>, run2: seq<seq<nat>>,
    marked: seq<seq<nat>>, turn: seq<nat>, heads: seq<nat>)

  class Collector {
    const fields: seq<seq<seq<nat>>>  // fields[s][o]: what object o refers to, as segment s sees it
    const home: seq<nat>              // 0, or the segment whose running transaction made the object
    const modified: seq<seq<nat>>     // modified_old_objects of every segment
    const marks: array<nat>           // write_locks, one per object
    var toTrace: seq<nat>             // mark_objects_to_trace
    const withFinalizers: array<seq<nat>>  // objects_with_finalizers; 0 is the global list
    const toRun: array<seq<nat>>           // run_finalizers

    ghost function Count(): nat { |home| }

    /** Memory that holds objects without references, and nothing is modified. */
    constructor (segments: nat, objects: nat)
      requires 0 < segments < ORDER_1
      ensures Valid() && ListsOk() && LocksHeld(marks[..]) && toTrace == [] && Count() == objects && |fields| == segments
    {
      fields, home := seq(segments, _ => seq(objects, _ => [])), seq(objects, _ => 0);
      modified := seq(segments, _ => []);
      marks, toTrace := new nat[objects](_ => 0), [];
      withFinalizers, toRun := new seq<nat>[segments](_ => []), new seq<nat>[segments](_ => []);
    }

    predicate Visible(o: nat, s: nat)
      requires o < |home|
    {
      home[o] == 0 || home[o] == s
    }

    ghost predicate Modified(o: nat) {
      exists s :: 0 <= s < |modified| && o in modified[s]
    }

    /** The views: they differ only in what is being modified, and show the new
        objects of another segment nowhere. */
    ghost predicate Views() {
      && |fields| == |modified| > 0 && modified[0] == []
      && (forall s :: 0 <= s < |fields| ==> |fields[s]| == Count())
      && (forall s: nat, o: nat, y: nat {:trigger y in fields[s][o]} :: s < |fields| && o < Count() && y in fields[s][o] ==> y < Count())
      && (forall s: nat, o: nat {:trigger o in modified[s]} :: s < |modified| && o in modified[s] ==> 0 < o < Count() && home[o] == 0)
      && (forall s: nat, o: nat :: s < |fields| && o < Count() && home[o] == 0 && o !in modified[s] ==> fields[s][o] == fields[0][o])
      && (forall s: nat, o: nat, y: nat {:trigger y in fields[s][o]} :: s < |fields| && o < Count() && Visible(o, s) && y in fields[s][o] && y != 0 ==> Visible(y, s))
      && (forall o :: 0 <= o < Count() ==> home[o] < |fields|)
    }

    ghost predicate Valid()
      reads this
    {
      Views() && marks.Length == Count() && forall x :: x in toTrace ==> 0 < x < Count()
    }

    /** What o refers to in any view. */
    ghost function Out(): (g: Graph)
      requires Views()
      ensures |g| == Count()
    {
      seq(Count(), o requires 0 <= o < Count() && Views() =>
        set s, y | 0 <= s < |fields| && Visible(o, s) && y in fields[s][o] && y != 0 :: y)
    }

    ghost predicate Marked(o: nat)
      reads marks
    {
      o < marks.Length && marks[o] == VISITED
    }

    /** Everything o refers to in segment s is marked. */
    ghost predicate Traced(o: nat, s: nat)
      requires Views() && o < Count() && s < |fields|
      reads marks
    {
      forall y :: y in fields[s][o] && y != 0 ==> Marked(y)
    }

    ghost function Unmarked(): set<nat>
      reads marks
    {
      set x | 0 <= x < marks.Length && marks[x] != VISITED
    }

    /** Marks are only added. */
    ghost predicate Grew(was: seq<nat>)
      reads marks
    {
      |was| == marks.Length && forall x :: 0 <= x < |was| ==> marks[x] == was[x] || marks[x] == VISITED
    }

    // ----- marking

    /** mark_record_trace on every field of the object. */
    method TraceInto(o: nat, base: nat)
      requires Valid() && 0 < o < Count() && base < |fields| && Visible(o, base)
      modifies this`toTrace, marks
      ensures Valid() && Grew(old(marks[..])) && Traced(o, base)
      ensures forall x :: x in toTrace ==> x in old(toTrace) || (Visible(x, base) && x in Out()[o] && Marked(x))
      ensures forall x :: 0 <= x < Count() && Marked(x) && old(marks[x]) != VISITED ==> x in toTrace
      ensures forall x :: x in old(toTrace) ==> x in toTrace
      ensures Unmarked() == old(Unmarked()) ==> toTrace == old(toTrace)
    {
      var k := 0;
      while k < |fields[base][o]|
        invariant k <= |fields[base][o]| && Valid() && Grew(old(marks[..]))
        invariant forall y :: y in fields[base][o][..k] && y != 0 ==> Marked(y)
        invariant forall x :: x in toTrace ==> x in old(toTrace) || (Visible(x, base) && x in Out()[o] && Marked(x))
        invariant forall x :: 0 <= x < Count() && Marked(x) && old(marks[x]) != VISITED ==> x in toTrace
        invariant forall x :: x in old(toTrace) ==> x in toTrace
        invariant Unmarked() == old(Unmarked()) ==> toTrace == old(toTrace)
      {
        var y := fields[base][o][k];
        assert y in fields[base][o] && fields[base][o][..k + 1] == fields[base][o][..k] + [y];
        if y != 0 && marks[y] != VISITED {
          assert y in old(Unmarked());
          marks[y] := VISITED;
          toTrace := toTrace + [y];
          assert y in Out()[o];
        }
        k := k + 1;
      }
    }

    /** mark_trace */
    method MarkTrace(obj: nat, base: nat)
      requires Valid() && toTrace == [] && 0 < obj < Count() && base < |fields| && Visible(obj, base)
      modifies this`toTrace, marks
      ensures Valid() && toTrace == [] && Grew(old(marks[..])) && Traced(obj, base)
      ensures forall x :: 0 <= x < Count() && Marked(x) && old(marks[x]) != VISITED ==>
        Visible(x, base) && Traced(x, base) && Reach(Out(), obj, x)
    {
      hide Views, Out;
      ReachSelf(Out(), Nodes(Out()), obj);
      var o := obj;
      TraceInto(o, base);
      ReachAll(obj, o);
      while toTrace != []
        invariant Valid() && Grew(old(marks[..])) && Traced(obj, base)
        invariant forall x :: x in toTrace ==> Marked(x) && Visible(x, base) && Reach(Out(), obj, x)
        invariant forall x :: 0 <= x < Count() && Marked(x) && old(marks[x]) != VISITED ==>
          Visible(x, base) && (x in toTrace || Traced(x, base)) && Reach(Out(), obj, x)
        decreases Unmarked(), |toTrace|
      {
        ghost var stack := toTrace;
        o := toTrace[|toTrace| - 1];
        toTrace := toTrace[..|toTrace| - 1];
        assert stack == toTrace + [o] && o in stack && forall x :: x in toTrace ==> x in stack;
        TraceInto(o, base);
        ReachAll(obj, o);
      }
    }

    lemma ReachAll(obj: nat, o: nat)
      requires Views() && o < Count() && Reach(Out(), obj, o)
      ensures forall x :: x in Out()[o] ==> Reach(Out(), obj, x)
    {
      forall x | x in Out()[o] ensures Reach(Out(), obj, x) {
        ReachStep(Out(), Nodes(Out()), obj, o, x);
      }
    }

    /** Everything x refers to, in any view, is marked. */
    ghost predicate Complete(x: nat)
      requires Views() && x < Count()
      reads marks
    {
      forall y :: y in Out()[x] ==> Marked(y)
    }

    ghost predicate PlainComplete()
      requires Views()
      reads marks
    {
      forall x :: 0 <= x < Count() && Marked(x) && !Modified(x) ==> Complete(x)
    }

    ghost predicate AllComplete()
      requires Views()
      reads marks
    {
      forall x :: 0 <= x < Count() && Marked(x) ==> Complete(x)
    }

    ghost predicate ReachedFrom(seeds: set<nat>, x: nat)
      requires Views()
    {
      exists r :: r in seeds && Reach(Out(), r, x)
    }

    /** Nothing is marked without a reason. */
    ghost predicate Sound(seeds: set<nat>)
      requires Views()
      reads marks
    {
      forall x :: 0 <= x < Count() && Marked(x) ==> ReachedFrom(seeds, x)
    }

    lemma ModifiedIsOld(s: nat, o: nat)
      requires Views() && s < |modified| && o in modified[s]
      ensures 0 < o < Count() && home[o] == 0 && o in AllModified() && Modified(o) && s != 0
    {
    }

    lemma SeesSame(x: nat, s: nat, t: nat)
      requires Views() && x < Count() && s < |fields| && t < |fields| && !Modified(x) && Visible(x, s) && Visible(x, t)
      ensures fields[s][x] == fields[t][x]
    {
      assert x !in modified[s] && x !in modified[t];
      if home[x] == 0 { assert fields[s][x] == fields[0][x] && fields[t][x] == fields[0][x]; }
    }

    /** An object that nobody is modifying need be traced in one view only. */
    lemma PlainTraced(x: nat, base: nat)
      requires Views() && x < Count() && base < |fields| && !Modified(x) && Visible(x, base) && Traced(x, base)
      ensures Complete(x)
    {
      forall y | y in Out()[x] ensures Marked(y) {
        var s :| 0 <= s < |fields| && Visible(x, s) && y in fields[s][x] && y != 0;
        SeesSame(x, s, base);
      }
    }

    /** A modified object needs both the committed and the private version. */
    lemma ModifiedTraced(o: nat)
      requires Views() && 0 < o < Count() && home[o] == 0 && Traced(o, 0)
      requires forall s :: 0 <= s < |modified| && o in modified[s] ==> Traced(o, s)
      ensures Complete(o)
    {
      forall y | y in Out()[o] ensures Marked(y) {
        var s :| 0 <= s < |fields| && y in fields[s][o] && y != 0;
        if o !in modified[s] { assert y in fields[0][o]; }
      }
    }

    method Trace(o: nat, base: nat, ghost seeds: set<nat>)
      requires Valid() && toTrace == [] && 0 < o < Count() && base < |fields| && Visible(o, base)
      requires Sound(seeds) && ReachedFrom(seeds, o)
      requires forall x :: 0 <= x < Count() && x != o && Marked(x) && !Modified(x) ==> Complete(x)
      modifies this`toTrace, marks
      ensures Valid() && toTrace == [] && Grew(old(marks[..])) && Traced(o, base) && Sound(seeds)
      ensures PlainComplete()
    {
      ghost var was := marks[..];
      MarkTrace(o, base);
      forall x | 0 <= x < Count() && Marked(x) && !Modified(x) ensures Complete(x) {
        if x == o || was[x] != VISITED { PlainTraced(x, base); }
      }
      forall x | 0 <= x < Count() && Marked(x) ensures ReachedFrom(seeds, x) {
        if was[x] != VISITED {
          var r :| r in seeds && Reach(Out(), r, o);
          ReachOn(Out(), r, o, x);
        }
      }
    }

    /** mark_visit_object */
    method VisitObject(o: nat, base: nat, ghost seeds: set<nat>)
      requires Valid() && toTrace == [] && o < Count() && base < |fields| && Visible(o, base)
      requires AllComplete() && Sound(seeds) && (o != 0 ==> o in seeds) && ModifiedMarked()
      modifies this`toTrace, marks
      ensures Valid() && toTrace == [] && Grew(old(marks[..])) && (o != 0 ==> Marked(o))
      ensures AllComplete() && Sound(seeds) && ModifiedMarked()
    {
      if o == 0 || marks[o] == VISITED {
        return;
      }
      marks[o] := VISITED;
      forall x: nat | x < Count() && Marked(x) && x != o ensures Complete(x) {
        CompleteStays(x);
      }
      ReachSelf(Out(), Nodes(Out()), o);
      Trace(o, base, seeds);
    }

    ghost predicate ModifiedMarked()
      requires Views()
      reads marks
    {
      forall x :: 0 <= x < Count() && Modified(x) ==> Marked(x)
    }

    twostate lemma CompleteStays(x: nat)
      requires Views() && x < Count() && old(Complete(x)) && Grew(old(marks[..]))
      ensures Complete(x)
    {
      forall y | y in Out()[x] ensures Marked(y) { assert old(Marked(y)); }
    }

    ghost function AllModified(): set<nat> {
      set s, o | 0 <= s < |modified| && o in modified[s] :: o
    }

    /** What segment s lists from place k on is marked and traced in both of its
        versions. */
    ghost predicate BothVersions(s: nat, k: nat)
      requires Views() && s < |modified|
      reads marks
    {
      k <= |modified[s]| && forall o :: o in modified[s][k..] ==> o < Count() && Marked(o) && Traced(o, 0) && Traced(o, s)
    }

    /** mark_visit_from_modified_objects */
    method VisitModified(ghost seeds: set<nat>)
      requires Valid() && toTrace == [] && AllModified() <= seeds && forall x :: 0 <= x < Count() ==> !Marked(x)
      modifies this`toTrace, marks
      ensures Valid() && toTrace == [] && Grew(old(marks[..])) && AllComplete() && Sound(seeds)
      ensures forall x :: 0 <= x < Count() && Modified(x) ==> Marked(x)
    {
      var i := 1;
      while i < |modified|
        invariant 1 <= i <= |modified| && Valid() && toTrace == [] && Grew(old(marks[..])) && Sound(seeds) && PlainComplete()
        invariant forall s :: 1 <= s < i ==> BothVersions(s, 0)
      {
        var k := |modified[i]|;
        while k > 0
          invariant 0 <= k <= |modified[i]| && Valid() && toTrace == [] && Grew(old(marks[..])) && Sound(seeds) && PlainComplete()
          invariant BothVersions(i, k) && forall s :: 1 <= s < i ==> BothVersions(s, 0)
        {
          k := k - 1;
          VisitItem(i, k, seeds);
        }
        i := i + 1;
      }
      forall x | 0 <= x < Count() && Modified(x) ensures Marked(x) && Complete(x) {
        ModifiedComplete(x);
      }
    }

    method VisitItem(i: nat, k: nat, ghost seeds: set<nat>)
      requires Valid() && toTrace == [] && 0 < i < |modified| && k < |modified[i]| && AllModified() <= seeds
      requires Sound(seeds) && PlainComplete() && BothVersions(i, k + 1) && forall s :: 1 <= s < i ==> BothVersions(s, 0)
      modifies this`toTrace, marks
      ensures Valid() && toTrace == [] && Grew(old(marks[..])) && Sound(seeds) && PlainComplete()
      ensures BothVersions(i, k) && forall s :: 1 <= s < i ==> BothVersions(s, 0)
    {
      var o := modified[i][k];
      assert modified[i][k..] == [o] + modified[i][k + 1..];
      ModifiedIsOld(i, o);
      TraceBoth(o, i, seeds);
      VersionsStay();
    }

    method TraceBoth(o: nat, i: nat, ghost seeds: set<nat>)
      requires Valid() && toTrace == [] && 0 < i < |modified| && o in modified[i] && o in seeds && Sound(seeds) && PlainComplete()
      modifies this`toTrace, marks
      ensures Valid() && toTrace == [] && Grew(old(marks[..])) && Sound(seeds) && PlainComplete()
      ensures o < Count() && Marked(o) && Traced(o, 0) && Traced(o, i)
    {
      ModifiedIsOld(i, o);
      ReachSelf(Out(), Nodes(Out()), o);
      marks[o] := VISITED;
      forall x: nat | x < Count() && Marked(x) && !Modified(x) ensures Complete(x) {
        CompleteStays(x);
      }
      Trace(o, 0, seeds);
      TracePrivate(o, i, seeds);
    }

    method TracePrivate(o: nat, i: nat, ghost seeds: set<nat>)
      requires Valid() && toTrace == [] && 0 < i < |modified| && o in modified[i] && Sound(seeds) && PlainComplete()
      requires Marked(o) && Traced(o, 0)
      modifies this`toTrace, marks
      ensures Valid() && toTrace == [] && Grew(old(marks[..])) && Sound(seeds) && PlainComplete()
      ensures Traced(o, 0) && Traced(o, i)
    {
      ModifiedIsOld(i, o);
      Trace(o, i, seeds);
      TracedStays();
    }

    twostate lemma TracedStays()
      requires Views() && Grew(old(marks[..]))
      ensures forall o, s :: 0 <= o < Count() && 0 <= s < |fields| && old(Traced(o, s)) ==> Traced(o, s)
    {
      forall o, s, y | 0 <= o < Count() && 0 <= s < |fields| && old(Traced(o, s)) && y in fields[s][o] && y != 0 ensures Marked(y) {
        assert old(Marked(y));
      }
    }

    twostate lemma VersionsStay()
      requires Views() && Grew(old(marks[..]))
      ensures forall s, k :: 0 <= s < |modified| && 0 <= k && old(BothVersions(s, k)) ==> BothVersions(s, k)
    {
      TracedStays();
      forall s, k, o | 0 <= s < |modified| && 0 <= k && old(BothVersions(s, k)) && o in modified[s][k..] ensures Marked(o) {
        assert old(Marked(o));
      }
    }

    lemma ModifiedComplete(x: nat)
      requires Views() && x < Count() && Modified(x) && forall s :: 1 <= s < |modified| ==> BothVersions(s, 0)
      ensures Marked(x) && Complete(x)
    {
      forall s | 0 <= s < |modified| && x in modified[s] ensures Marked(x) && Traced(x, 0) && Traced(x, s) {
        ModifiedIsOld(s, x);
        assert BothVersions(s, 0) && modified[s][0..] == modified[s];
      }
      var s :| 0 <= s < |modified| && x in modified[s];
      ModifiedIsOld(s, x);
      ModifiedTraced(x);
    }

    /** The objects from which marking starts. */
    ghost function Seeds(roots: seq<(nat, nat)>): set<nat> {
      AllModified() + (set k | 0 <= k < |roots| && roots[k].0 != 0 :: roots[k].0)
    }

    ghost predicate RootsValid(roots: seq<(nat, nat)>) {
      forall k :: 0 <= k < |roots| ==> roots[k].0 < Count() && roots[k].1 < |fields| && Visible(roots[k].0, roots[k].1)
    }

    /** The marking phase: first the modified objects, then all the roots, each
        seen from some segment.  Exactly what is reachable is marked. */
    method Mark(roots: seq<(nat, nat)>)
      requires Valid() && toTrace == [] && RootsValid(roots) && forall x :: 0 <= x < Count() ==> !Marked(x)
      modifies this`toTrace, marks
      ensures Valid() && toTrace == [] && Grew(old(marks[..]))
      ensures forall x :: 0 <= x < Count() ==> (Marked(x) <==> ReachedFrom(Seeds(roots), x))
    {
      VisitModified(Seeds(roots));
      var k := 0;
      while k < |roots|
        invariant k <= |roots| && Valid() && toTrace == [] && Grew(old(marks[..])) && AllComplete() && Sound(Seeds(roots))
        invariant forall x :: 0 <= x < Count() && Modified(x) ==> Marked(x)
        invariant forall m :: 0 <= m < k && roots[m].0 != 0 ==> Marked(roots[m].0)
      {
        VisitObject(roots[k].0, roots[k].1, Seeds(roots));
        k := k + 1;
      }
      forall x | 0 <= x < Count() && ReachedFrom(Seeds(roots), x) ensures Marked(x) {
        var r :| r in Seeds(roots) && Reach(Out(), r, x);
        ReachMarked(r, x);
      }
    }

    lemma ReachMarked(r: nat, x: nat)
      requires Views() && marks.Length == Count() && AllComplete() && Marked(r) && Reach(Out(), r, x)
      ensures Marked(x)
    {
      var c := set m | 0 <= m < Count() && Marked(m);
      ReachStays(Out(), Nodes(Out()), c, r, x);
    }

    /** The graph as segment s sees it. */
    ghost function SeenBy(s: nat): (g: Graph)
      requires Views() && s < |fields|
      ensures |g| == Count()
    {
      seq(Count(), o requires 0 <= o < Count() && Views() => set y | y in fields[s][o] && y != 0)
    }

    /** Segment s can reach x from a root that it sees. */
    ghost predicate SeenFrom(roots: seq<(nat, nat)>, s: nat, x: nat)
      requires Views() && s < |fields|
    {
      exists k :: 0 <= k < |roots| && roots[k].0 != 0 && roots[k].0 < Count() && Visible(roots[k].0, s) && Reach(SeenBy(s), roots[k].0, x)
    }

    /** Marking is complete in every view: whatever some segment can reach from a
        root it can see is reached by the marking, although most objects are traced
        in the view of one segment only. */
    lemma MarkedInEveryView(roots: seq<(nat, nat)>, s: nat, x: nat)
      requires Views() && RootsValid(roots) && s < |fields| && SeenFrom(roots, s, x)
      ensures x < Count() && Visible(x, s) && ReachedFrom(Seeds(roots), x)
    {
      var k :| 0 <= k < |roots| && roots[k].0 != 0 && roots[k].0 < Count() && Visible(roots[k].0, s) && Reach(SeenBy(s), roots[k].0, x);
      var c := set o | 0 <= o < Count() && Visible(o, s) && ReachedFrom(Seeds(roots), o);
      var r := roots[k].0;
      ReachSelf(Out(), Nodes(Out()), r);
      assert r in Seeds(roots);
      assert r in c;
      forall a: nat, b: nat | a in c && a < |SeenBy(s)| && b in SeenBy(s)[a] ensures b in c {
        assert b in Out()[a];
        var seed :| seed in Seeds(roots) && Reach(Out(), seed, a);
        ReachStep(Out(), Nodes(Out()), seed, a, b);
      }
      var g := SeenBy(s);
      assert x in c by { ReachStays(g, Nodes(g), c, r, x); }
    }

    // ----- finalizers

    /** A dead object seen from a segment that sees it refers to the same objects
        in every view. */
    lemma DeadRefs(o: nat, base: nat)
      requires Views() && o < Count() && base < |fields| && !Modified(o) && Visible(o, base)
      ensures forall y: nat :: y in Out()[o] <==> y != 0 && y in fields[base][o]
    {
      forall y: nat | y in Out()[o] ensures y != 0 && y in fields[base][o] {
        var s :| 0 <= s < |fields| && Visible(o, s) && y in fields[s][o] && y != 0;
        SeesSame(o, s, base);
      }
    }

    /** finalizer_trace */
    method AppendRefs(stack: seq<nat>, o: nat, base: nat) returns (stack': seq<nat>)
      requires Views() && o < Count() && base < |fields| && !Modified(o) && Visible(o, base)
      ensures forall y: nat :: y in stack' <==> y in stack || y in Out()[o]
    {
      stack' := stack;
      var refs := fields[base][o];
      var k := 0;
      while k < |refs|
        invariant k <= |refs| && forall y :: y in stack' <==> y in stack || (y != 0 && y in refs[..k])
      {
        assert refs[..k + 1] == refs[..k] + [refs[k]];
        if refs[k] != 0 {
          stack' := stack' + [refs[k]];
        }
        k := k + 1;
      }
      assert refs[..k] == refs;
      DeadRefs(o, base);
    }

    ghost function With(m: seq<nat>, v: nat): (all: set<nat>)
      ensures forall x: nat :: x in all <==> x < |m| && m[x] == v
    {
      set x | 0 <= x < |m| && m[x] == v
    }

    ghost predicate OnStack(stack: seq<nat>, base: nat)
      requires Views()
    {
      forall y :: y in stack ==> y < Count() && Visible(y, base)
    }

    ghost predicate DeadPlain(m: seq<nat>) {
      forall x :: 0 <= x < |m| && m[x] != VISITED ==> !Modified(x)
    }

    lemma OutVisible(o: nat, base: nat)
      requires Views() && o < Count() && base < |fields| && !Modified(o) && Visible(o, base)
      ensures forall y: nat :: y in Out()[o] ==> y < Count() && Visible(y, base)
    {
      DeadRefs(o, base);
      forall y: nat | y in Out()[o] ensures y < Count() && Visible(y, base) {
        assert y in fields[base][o];
      }
    }

    /** Where the bumping of the finalization state from `from` to from + 1 is. */
    ghost predicate Bumping(was: seq<nat>, m: seq<nat>, from: nat, obj: nat, stack: seq<nat>)
      requires Views() && |was| == |m| == Count()
    {
      && (forall x :: 0 <= x < |m| ==> m[x] == was[x] || (was[x] == from && m[x] == from + 1 && ReachIn(Out(), With(was, from), obj, x)))
      && (forall x: nat, y: nat :: x < |m| && was[x] == from && m[x] != from && y in Out()[x] && y !in stack ==> y < |m| && m[y] != from)
      && (forall y :: y in stack && y < |m| && was[y] == from ==> ReachIn(Out(), With(was, from), obj, y))
    }

    /** _recursively_bump_finalization_state: bumps obj and everything that it
        reaches through objects of the same state, and nothing else. */
    method Bump(base: nat, obj: nat, to: nat)
      requires Views() && marks.Length == Count() && 0 < to <= VISITED && base < |fields|
      requires obj < Count() && Visible(obj, base) && DeadPlain(marks[..])
      modifies marks
      ensures forall x :: 0 <= x < Count() ==>
        marks[x] == if old(marks[x]) == to - 1 && ReachIn(Out(), With(old(marks[..]), to - 1), obj, x) then to else old(marks[x])
    {
      hide Views, DeadPlain, ReachIn, Out;
      ghost var was := marks[..];
      if marks[obj] == to - 1 { ReachSelf(Out(), With(was, to - 1), obj); }
      var stack := BumpOne([], base, obj, to, obj, was);
      while stack != []
        invariant OnStack(stack, base) && Bumping(was, marks[..], to - 1, obj, stack) && marks[obj] != to - 1
        decreases With(marks[..], to - 1), |stack|
      {
        var o := stack[|stack| - 1];
        ghost var all := stack;
        stack := stack[..|stack| - 1];
        assert all == stack + [o] && o in all && forall y :: y in stack ==> y in all;
        stack := BumpOne(stack, base, o, to, obj, was);
      }
      Bumped(was, to - 1, obj);
    }

    lemma Bumped(was: seq<nat>, from: nat, obj: nat)
      requires Views() && |was| == marks.Length == Count() && obj < Count()
      requires Bumping(was, marks[..], from, obj, []) && marks[obj] != from
      ensures forall x :: 0 <= x < Count() && was[x] == from && ReachIn(Out(), With(was, from), obj, x) ==> marks[x] == from + 1
    {
      forall x: nat | x < Count() && was[x] == from && ReachIn(Out(), With(was, from), obj, x) ensures marks[x] == from + 1 {
        var p :| PathIn(Out(), With(was, from), p, obj, x);
        assert p[0] in With(was, from);
        ReachStays(Out(), With(was, from), With(was, from) * With(marks[..], from + 1), obj, x);
      }
    }

    /** One round of the loop: bumps the object if it has the right state, and
        pushes what it refers to. */
    method BumpOne(stack: seq<nat>, base: nat, o: nat, to: nat, ghost obj: nat, ghost was: seq<nat>) returns (stack': seq<nat>)
      requires Views() && marks.Length == Count() == |was| && 0 < to <= VISITED && base < |fields| && DeadPlain(was)
      requires o < Count() && OnStack(stack + [o], base) && Bumping(was, marks[..], to - 1, obj, stack + [o])
      modifies marks
      ensures OnStack(stack', base) && Bumping(was, marks[..], to - 1, obj, stack') && marks[o] != to - 1
      ensures forall x :: 0 <= x < Count() && old(marks[x]) != to - 1 ==> marks[x] != to - 1
      ensures stack' == stack || With(marks[..], to - 1) < With(old(marks[..]), to - 1)
    {
      stack' := stack;
      assert o in stack + [o] && forall y :: y in stack ==> y in stack + [o];
      if marks[o] == to - 1 {
        assert o in With(old(marks[..]), to - 1) && was[o] == to - 1;
        marks[o] := marks[o] + 1;
        stack' := AppendRefs(stack, o, base);
        OutVisible(o, base);
        forall y: nat | y in Out()[o] && was[y] == to - 1 ensures ReachIn(Out(), With(was, to - 1), obj, y) {
          ReachStep(Out(), With(was, to - 1), obj, o, y);
        }
      }
    }

    /** The state between two rounds of mark_finalize_step1.  turn[x] is the round
        in which the dead object x was reached, 0 if it was not, and heads are the
        objects from which the rounds started. */
    ghost predicate Ordered(m: seq<nat>, turn: seq<nat>, heads: seq<nat>)
      requires Views()
    {
      && |m| == |turn| == Count() && DeadPlain(m)
      && (forall x :: 0 <= x < |m| ==> m[x] != ORDER_1 && m[x] <= VISITED && turn[x] <= |heads|)
      && (forall x :: 0 <= x < |m| ==> (turn[x] > 0 ==> m[x] >= ORDER_2) && (m[x] == ORDER_2 ==> turn[x] > 0))
      && (forall x: nat, y: nat {:trigger y in Out()[x]} :: x < |m| && y in Out()[x] ==> y < |m| && EdgeOrdered(m, turn, x, y))
      && (forall t :: 0 <= t < |heads| ==> heads[t] < |m| && turn[heads[t]] == t + 1)
      && (forall x :: 0 <= x < |m| ==> FromHead(turn, heads, x))
    }

    ghost predicate FromHead(turn: seq<nat>, heads: seq<nat>, x: nat)
      requires Views() && |turn| == Count() && x < |turn| && turn[x] <= |heads|
    {
      turn[x] > 0 ==> Reach(Out(), heads[turn[x] - 1], x)
    }

    /** What a reference from x to y means for their states: y is at least as far
        as x, y was not reached later than x, and if it was reached in an earlier
        round, it is fully visited. */
    ghost predicate EdgeOrdered(m: seq<nat>, turn: seq<nat>, x: nat, y: nat)
      requires |m| == |turn| && x < |m| && y < |m|
    {
      && (m[x] == VISITED ==> m[y] == VISITED)
      && (m[x] >= ORDER_2 ==> m[y] >= ORDER_2)
      && (turn[x] > 0 ==> turn[y] <= turn[x])
      && (turn[x] > 0 && turn[y] < turn[x] ==> m[y] == VISITED)
    }

    /** Inside the round that starts from x. */
    ghost predicate Spreading(was: seq<nat>, m: seq<nat>, x: nat, pending: seq<nat>)
      requires Views() && |was| == |m| == Count() && x < |m|
    {
      && (forall a :: 0 <= a < |m| ==> was[a] != ORDER_1 && m[a] <= VISITED)
      && (forall a :: 0 <= a < |m| && m[a] != was[a] ==>
        ((was[a] < ORDER_1 && m[a] == ORDER_1 && ReachIn(Out(), With(m, ORDER_1), x, a))
         || (was[a] == ORDER_2 && m[a] == VISITED)))
      && (forall a: nat, b: nat {:trigger b in Out()[a]} :: a < |m| && b in Out()[a] ==>
        (b < |m|
         && (m[a] == VISITED ==> m[b] == VISITED)
         && (m[a] >= ORDER_2 ==> m[b] >= ORDER_2)
         && (m[a] == ORDER_1 ==> m[b] == ORDER_1 || m[b] == VISITED || b in pending)))
      && (forall y :: y in pending ==> y == x || HasParent(m, y))
      && (m[x] == ORDER_1 || (pending == [x] && m == was))
    }

    ghost predicate HasParent(m: seq<nat>, y: nat)
      requires Views() && |m| == Count()
    {
      exists a :: 0 <= a < |m| && m[a] == ORDER_1 && y in Out()[a]
    }

    /** The loop over `pending`. */
    method Spread(x: nat, base: nat, ghost turn: seq<nat>, ghost heads: seq<nat>)
      requires Views() && marks.Length == Count() && base < |fields| && x < Count() && Visible(x, base)
      requires Ordered(marks[..], turn, heads) && marks[x] < ORDER_1
      modifies marks
      ensures Spreading(old(marks[..]), marks[..], x, [])
    {
      hide Views, Out, ReachIn;
      ghost var was := marks[..];
      var pending := [x];
      while pending != []
        invariant OnStack(pending, base) && Spreading(was, marks[..], x, pending) && DeadPlain(marks[..])
        decreases Early(marks[..]), With(marks[..], ORDER_2), |pending|
      {
        var y := pending[|pending| - 1];
        ghost var all := pending;
        pending := pending[..|pending| - 1];
        assert all == pending + [y] && y in all && forall z :: z in pending ==> z in all;
        if marks[y] < ORDER_1 {
          pending := SpreadOne(pending, y, x, base, was);
        } else if marks[y] == ORDER_2 {
          SpreadLast(pending, y, x, base, was);
        }
      }
    }

    /** A dead object that was not reached before: it gets state 1. */
    method SpreadOne(pending: seq<nat>, y: nat, x: nat, base: nat, ghost was: seq<nat>) returns (pending': seq<nat>)
      requires Views() && marks.Length == |was| == Count() && base < |fields| && x < Count() && y < Count() && was[x] < ORDER_1
      requires OnStack(pending + [y], base) && DeadPlain(was)
      requires Spreading(was, marks[..], x, pending + [y]) && marks[y] < ORDER_1
      modifies marks
      ensures OnStack(pending', base) && Spreading(was, marks[..], x, pending')
      ensures Early(marks[..]) < Early(old(marks[..]))
    {
      hide Views, Out, ReachIn;
      ghost var m := marks[..];
      assert y in pending + [y] && forall z :: z in pending ==> z in pending + [y];
      assert y in Early(m) && was[y] == m[y];
      marks[y] := ORDER_1;
      pending' := AppendRefs(pending, y, base);
      OutVisible(y, base);
      SpreadReach(was, m, marks[..], x, y, pending);
      forall z | z in pending' ensures z == x || HasParent(marks[..], z) {
        if z in pending && z != x { ParentStays(m, marks[..], z); }
      }
    }

    lemma ParentStays(m: seq<nat>, m': seq<nat>, z: nat)
      requires Views() && |m| == |m'| == Count() && HasParent(m, z)
      requires forall a :: 0 <= a < |m| && m[a] == ORDER_1 ==> m'[a] == ORDER_1
      ensures HasParent(m', z)
    {
      var a :| 0 <= a < |m| && m[a] == ORDER_1 && z in Out()[a];
      assert m'[a] == ORDER_1;
    }

    lemma SpreadReach(was: seq<nat>, m: seq<nat>, m': seq<nat>, x: nat, y: nat, pending: seq<nat>)
      requires Views() && |was| == |m| == |m'| == Count() && x < Count() && y < Count() && was[x] < ORDER_1
      requires Spreading(was, m, x, pending + [y]) && m[y] < ORDER_1 && m' == m[y := ORDER_1]
      ensures forall a :: 0 <= a < |m| && m'[a] == ORDER_1 && was[a] < ORDER_1 ==> ReachIn(Out(), With(m', ORDER_1), x, a)
    {
      var w, w' := With(m, ORDER_1), With(m', ORDER_1);
      forall a: nat | a < |m| && m[a] == ORDER_1 && was[a] < ORDER_1 ensures ReachIn(Out(), w', x, a) {
        ReachWider(Out(), w, w', x, a);
      }
      assert y in pending + [y];
      if y == x {
        ReachSelf(Out(), w', x);
      } else {
        var a :| 0 <= a < |m| && m[a] == ORDER_1 && y in Out()[a];
        ReachStep(Out(), w', x, a, y);
      }
    }

    /** An object reached in an earlier round: it and all it reaches are kept. */
    method SpreadLast(ghost pending: seq<nat>, y: nat, x: nat, base: nat, ghost was: seq<nat>)
      requires Views() && marks.Length == |was| == Count() && base < |fields| && x < Count() && y < Count()
      requires OnStack(pending + [y], base) && DeadPlain(marks[..]) && was[x] < ORDER_1
      requires Spreading(was, marks[..], x, pending + [y]) && marks[y] == ORDER_2
      modifies marks
      ensures Spreading(was, marks[..], x, pending) && DeadPlain(marks[..])
      ensures Early(marks[..]) == Early(old(marks[..])) && With(marks[..], ORDER_2) < With(old(marks[..]), ORDER_2)
    {
      hide Views, Out, ReachIn;
      ghost var m := marks[..];
      assert y in pending + [y] && forall z :: z in pending ==> z in pending + [y];
      Bump(base, y, VISITED);
      ReachSelf(Out(), With(m, ORDER_2), y);
      assert y in With(m, ORDER_2);
      SpreadVisited(m, marks[..], y);
      assert marks[y] == VISITED && forall b :: b in pending + [y] ==> b in pending || b == y;
      assert pending + [y] == [x] ==> x == y by { assert (pending + [y])[|pending|] == y; }
      StillSpread(was, m, marks[..], x, pending);
    }

    lemma StillSpread(was: seq<nat>, m: seq<nat>, m': seq<nat>, x: nat, pending: seq<nat>)
      requires Views() && |was| == |m| == |m'| == Count() && forall a :: 0 <= a < |m| ==> (m'[a] == ORDER_1 <==> m[a] == ORDER_1)
      requires forall a :: 0 <= a < |m| && m[a] == ORDER_1 && was[a] < ORDER_1 ==> ReachIn(Out(), With(m, ORDER_1), x, a)
      requires forall z :: z in pending ==> z == x || HasParent(m, z)
      ensures forall a :: 0 <= a < |m| && m[a] == ORDER_1 && was[a] < ORDER_1 ==> ReachIn(Out(), With(m', ORDER_1), x, a)
      ensures forall z :: z in pending ==> z == x || HasParent(m', z)
    {
      assert With(m, ORDER_1) == With(m', ORDER_1);
      forall z | z in pending ensures z == x || HasParent(m', z) {
        if z != x { ParentStays(m, m', z); }
      }
    }

    /** Bumping from 2 to 3 keeps both kinds of states closed. */
    lemma SpreadVisited(m: seq<nat>, m': seq<nat>, y: nat)
      requires Views() && |m| == |m'| == Count() && forall a :: 0 <= a < |m| ==> m[a] <= VISITED
      requires forall a: nat, b: nat {:trigger b in Out()[a]} :: a < |m| && b in Out()[a] ==>
        b < |m| && (m[a] == VISITED ==> m[b] == VISITED) && (m[a] >= ORDER_2 ==> m[b] >= ORDER_2)
      requires forall a :: 0 <= a < |m| ==>
        m'[a] == if m[a] == ORDER_2 && ReachIn(Out(), With(m, ORDER_2), y, a) then VISITED else m[a]
      ensures forall a: nat, b: nat {:trigger b in Out()[a]} :: a < |m| && b in Out()[a] ==>
        b < |m| && (m'[a] == VISITED ==> m'[b] == VISITED) && (m'[a] >= ORDER_2 ==> m'[b] >= ORDER_2)
    {
      forall a: nat, b: nat | a < |m| && b in Out()[a] && m[a] == ORDER_2 && m'[a] == VISITED ensures b < |m| && m'[b] == VISITED {
        if m[b] == ORDER_2 { ReachStep(Out(), With(m, ORDER_2), y, a, b); }
      }
    }

    ghost function Early(m: seq<nat>): (all: set<nat>)
      ensures forall x: nat :: x in all <==> x < |m| && m[x] < ORDER_1
    {
      set x | 0 <= x < |m| && m[x] < ORDER_1
    }

    /** States only go up: from "not reached" to 2 or 3, and from 2 to 3. */
    ghost predicate Advanced(m: seq<nat>, m': seq<nat>) {
      |m| == |m'| && forall a :: 0 <= a < |m| ==>
        m'[a] == m[a] || (m[a] < ORDER_1 && ORDER_2 <= m'[a] <= VISITED) || (m[a] == ORDER_2 && m'[a] == VISITED)
    }

    ghost function NextTurn(m: seq<nat>, m': seq<nat>, turn: seq<nat>, round: nat): (turn': seq<nat>)
      requires |m| == |m'| == |turn|
      ensures |turn'| == |m|
    {
      seq(|m|, a requires 0 <= a < |m| => if m[a] < ORDER_1 && m'[a] >= ORDER_2 then round else turn[a])
    }

    /** One object of mark_finalize_step1. */
    method Round(x: nat, base: nat, ghost turn: seq<nat>, ghost heads: seq<nat>) returns (ghost turn': seq<nat>)
      requires Views() && marks.Length == Count() && base < |fields| && x < Count() && Visible(x, base)
      requires Ordered(marks[..], turn, heads) && marks[x] < ORDER_1
      modifies marks
      ensures turn' == NextTurn(old(marks[..]), marks[..], turn, |heads| + 1)
      ensures Ordered(marks[..], turn', heads + [x]) && Advanced(old(marks[..]), marks[..]) && marks[x] == ORDER_2
    {
      ghost var was := marks[..];
      Spread(x, base, turn, heads);
      ghost var mid := marks[..];
      ReachSelf(Out(), With(mid, ORDER_1), x);
      Bump(base, x, ORDER_2);
      turn' := NextTurn(was, marks[..], turn, |heads| + 1);
      RoundOrdered(was, mid, marks[..], x, turn, heads);
    }

    lemma RoundOrdered(was: seq<nat>, mid: seq<nat>, m: seq<nat>, x: nat, turn: seq<nat>, heads: seq<nat>)
      requires Views() && |was| == |mid| == |m| == |turn| == Count() && x < Count() && was[x] < ORDER_1
      requires Ordered(was, turn, heads) && Spreading(was, mid, x, [])
      requires forall a :: 0 <= a < |m| ==>
        m[a] == if mid[a] == ORDER_1 && ReachIn(Out(), With(mid, ORDER_1), x, a) then ORDER_2 else mid[a]
      ensures Ordered(m, NextTurn(was, m, turn, |heads| + 1), heads + [x]) && Advanced(was, m) && m[x] == ORDER_2
    {
      var turn', heads' := NextTurn(was, m, turn, |heads| + 1), heads + [x];
      ReachSelf(Out(), With(mid, ORDER_1), x);
      assert Advanced(was, m);
      forall a: nat, b: nat | a < |m| && b in Out()[a] ensures b < |m| && EdgeOrdered(m, turn', a, b) {
        assert EdgeOrdered(was, turn, a, b);
      }
      forall a | 0 <= a < |m| ensures FromHead(turn', heads', a) {
        assert FromHead(turn, heads, a);
        if turn'[a] == |heads| + 1 {
          ReachWider(Out(), With(mid, ORDER_1), Nodes(Out()), x, a);
        }
      }
    }

    ghost predicate ListsOk()
      reads withFinalizers
    {
      && withFinalizers.Length == toRun.Length == |fields| && withFinalizers != toRun
      && forall j: nat, x: nat {:trigger x in withFinalizers[j]} :: j < |fields| && x in withFinalizers[j] ==> 0 < x < Count() && Visible(x, j)
    }

    /** Every object that was dead at first and was reached has its round. */
    ghost predicate Known(first: seq<nat>, m: seq<nat>, turn: seq<nat>) {
      |first| == |m| == |turn| && forall a :: 0 <= a < |m| && first[a] < ORDER_1 && m[a] >= ORDER_2 ==> turn[a] > 0
    }

    /** The objects `list` of segment j were dealt with: each one is reached now,
        and it was kept, or, if nothing had reached it, it was marked. */
    ghost predicate Dealt(j: nat, first: seq<nat>, was: seq<nat>, m: seq<nat>, list: seq<nat>, kept: seq<nat>, marked: seq<nat>)
      requires |first| == |m| == Count()
    {
      && multiset(list) == multiset(kept) + multiset(marked)
      && (forall x :: x in list ==> x < |m| && m[x] >= ORDER_2)
      && (forall x :: x in marked ==> 0 < x < |m| && Visible(x, j) && first[x] < ORDER_1)
      && (if marked == [] then m == was else marked[|marked| - 1] < |m| && m[marked[|marked| - 1]] == ORDER_2)
    }

    /** mark_finalize_step1: objects that were not reached yet go to `marked`, the
        others stay in the list. */
    method Step1(j: nat, ghost first: seq<nat>, ghost turn: seq<nat>, ghost heads: seq<nat>)
      returns (marked: seq<nat>, ghost turn': seq<nat>)
      requires Views() && ListsOk() && marks.Length == Count() && j < |fields|
      requires Ordered(marks[..], turn, heads) && Known(first, marks[..], turn) && Advanced(first, marks[..])
      modifies marks, withFinalizers
      ensures ListsOk() && Ordered(marks[..], turn', heads + marked) && Known(first, marks[..], turn')
      ensures Advanced(old(marks[..]), marks[..]) && Advanced(first, marks[..])
      ensures withFinalizers[..] == old(withFinalizers[..])[j := withFinalizers[j]]
      ensures Dealt(j, first, old(marks[..]), marks[..], old(withFinalizers[j]), withFinalizers[j], marked)
    {
      var list := withFinalizers[j];
      var kept;
      kept, marked, turn' := Step1Loop(j, list, first, turn, heads);
      forall x | x in kept ensures x in list {
        assert x in multiset(kept) && x in multiset(list);
      }
      withFinalizers[j] := kept;
    }

    method Step1Loop(j: nat, list: seq<nat>, ghost first: seq<nat>, ghost turn: seq<nat>, ghost heads: seq<nat>)
      returns (kept: seq<nat>, marked: seq<nat>, ghost turn': seq<nat>)
      requires Views() && marks.Length == Count() && j < |fields| && forall x :: x in list ==> 0 < x < Count() && Visible(x, j)
      requires Ordered(marks[..], turn, heads) && Known(first, marks[..], turn) && Advanced(first, marks[..])
      modifies marks
      ensures Ordered(marks[..], turn', heads + marked) && Known(first, marks[..], turn')
      ensures Advanced(old(marks[..]), marks[..]) && Advanced(first, marks[..])
      ensures Dealt(j, first, old(marks[..]), marks[..], list, kept, marked)
    {
      hide Views, Out;
      kept, marked, turn' := [], [], turn;
      assert heads + marked == heads;
      var i := 0;
      while i < |list|
        invariant i <= |list| && Ordered(marks[..], turn', heads + marked) && Known(first, marks[..], turn')
        invariant Advanced(old(marks[..]), marks[..]) && Advanced(first, marks[..])
        invariant Dealt(j, first, old(marks[..]), marks[..], list[..i], kept, marked)
      {
        assert list[..i + 1] == list[..i] + [list[i]] && list[i] in list;
        kept, marked, turn' := Step1One(j, list[i], first, old(marks[..]), list[..i], kept, marked, turn', heads);
        i := i + 1;
      }
      assert list[..i] == list;
    }

    method Step1One(j: nat, x: nat, ghost first: seq<nat>, ghost start: seq<nat>, ghost done: seq<nat>,
                    kept: seq<nat>, marked: seq<nat>, ghost turn: seq<nat>, ghost heads: seq<nat>)
      returns (kept': seq<nat>, marked': seq<nat>, ghost turn': seq<nat>)
      requires Views() && marks.Length == Count() && j < |fields| && 0 < x < Count() && Visible(x, j)
      requires Ordered(marks[..], turn, heads + marked) && Known(first, marks[..], turn)
      requires Advanced(start, marks[..]) && Advanced(first, marks[..]) && Dealt(j, first, start, marks[..], done, kept, marked)
      modifies marks
      ensures Ordered(marks[..], turn', heads + marked') && Known(first, marks[..], turn')
      ensures Advanced(start, marks[..]) && Advanced(first, marks[..])
      ensures Dealt(j, first, start, marks[..], done + [x], kept', marked')
    {
      kept', marked', turn' := kept, marked, turn;
      if marks[x] >= ORDER_2 {
        kept' := kept + [x];
      } else {
        turn' := Round(x, j, turn, heads + marked);
        assert heads + marked + [x] == heads + (marked + [x]);
        marked' := marked + [x];
      }
    }

    /** The second half: m1 are the states at the end of the first. */
    ghost predicate Finishing(m1: seq<nat>, m: seq<nat>)
      requires Views()
    {
      && |m1| == |m| == Count() && DeadPlain(m)
      && (forall a :: 0 <= a < |m| ==> m[a] <= VISITED && (m[a] == m1[a] || (m1[a] == ORDER_2 && m[a] == VISITED)))
      && (forall a: nat, b: nat {:trigger b in Out()[a]} :: a < |m| && b in Out()[a] ==>
        (b < |m| && (m[a] == VISITED ==> m[b] == VISITED) && (m[a] >= ORDER_2 ==> m[b] >= ORDER_2)))
    }

    /** What mark_finalize_step2 did with the objects `done`: they are all fully
        visited, and those that were still in state 2 are queued. */
    ghost predicate Decided(m1: seq<nat>, was: seq<nat>, m: seq<nat>, done: seq<nat>, kept: seq<nat>, queued: seq<nat>) {
      && |m1| == |was| == |m| && multiset(done) == multiset(kept) + multiset(queued)
      && (forall x :: x in done ==> x < |m| && m[x] == VISITED)
      && (forall x :: x in queued ==> x < |m1| && m1[x] == ORDER_2)
      && (queued == [] ==> m == was)
      && (forall x :: x in done && x < |was| && was[x] == ORDER_2 ==> queued != [])
    }

    /** mark_finalize_step2 */
    method Step2(j: nat, marked: seq<nat>, ghost m1: seq<nat>)
      requires Views() && ListsOk() && marks.Length == Count() && j < |fields| && Finishing(m1, marks[..])
      requires forall x :: x in marked ==> 0 < x < Count() && Visible(x, j) && m1[x] >= ORDER_2
      modifies marks, withFinalizers, toRun
      ensures ListsOk() && Finishing(m1, marks[..]) && Finishing(old(marks[..]), marks[..])
      ensures old(withFinalizers[j]) <= withFinalizers[j] && old(toRun[j]) <= toRun[j]
      ensures withFinalizers[..] == old(withFinalizers[..])[j := withFinalizers[j]]
      ensures toRun[..] == old(toRun[..])[j := toRun[j]]
      ensures Decided(m1, old(marks[..]), marks[..], marked,
                withFinalizers[j][|old(withFinalizers[j])|..], toRun[j][|old(toRun[j])|..])
    {
      var kept, queued := Step2Loop(j, marked, m1);
      forall x | x in kept ensures x in marked { assert x in multiset(kept) && x in multiset(marked); }
      withFinalizers[j] := withFinalizers[j] + kept;
      toRun[j] := toRun[j] + queued;
    }

    method Step2Loop(j: nat, marked: seq<nat>, ghost m1: seq<nat>) returns (kept: seq<nat>, queued: seq<nat>)
      requires Views() && marks.Length == Count() && j < |fields| && Finishing(m1, marks[..])
      requires forall x :: x in marked ==> 0 < x < Count() && Visible(x, j) && m1[x] >= ORDER_2
      modifies marks
      ensures Finishing(m1, marks[..]) && Finishing(old(marks[..]), marks[..])
      ensures Decided(m1, old(marks[..]), marks[..], marked, kept, queued)
    {
      kept, queued := [], [];
      var i := 0;
      while i < |marked|
        invariant i <= |marked| && Finishing(m1, marks[..]) && Finishing(old(marks[..]), marks[..])
        invariant Decided(m1, old(marks[..]), marks[..], marked[..i], kept, queued)
      {
        assert marked[..i + 1] == marked[..i] + [marked[i]] && marked[i] in marked;
        kept, queued := Step2One(j, marked[i], m1, old(marks[..]), marked[..i], kept, queued);
        i := i + 1;
      }
      assert marked[..i] == marked;
    }

    method Step2One(j: nat, x: nat, ghost m1: seq<nat>, ghost start: seq<nat>, ghost done: seq<nat>, kept: seq<nat>, queued: seq<nat>)
      returns (kept': seq<nat>, queued': seq<nat>)
      requires Views() && marks.Length == Count() && j < |fields| && 0 < x < Count() && Visible(x, j)
      requires |m1| == Count() && m1[x] >= ORDER_2 && Finishing(m1, marks[..]) && Finishing(start, marks[..]) && Decided(m1, start, marks[..], done, kept, queued)
      modifies marks
      ensures Finishing(m1, marks[..]) && Finishing(start, marks[..])
      ensures Decided(m1, start, marks[..], done + [x], kept', queued')
    {
      kept', queued' := kept, queued;
      if marks[x] == ORDER_2 {
        queued' := queued + [x];
        BumpFinal(j, x, m1);
      } else {
        kept' := kept + [x];
      }
    }

    method BumpFinal(j: nat, x: nat, ghost m1: seq<nat>)
      requires Views() && marks.Length == Count() && j < |fields| && 0 < x < Count() && Visible(x, j)
      requires Finishing(m1, marks[..]) && marks[x] == ORDER_2
      modifies marks
      ensures Finishing(m1, marks[..]) && Finishing(old(marks[..]), marks[..]) && marks[x] == VISITED
    {
      ghost var was := marks[..];
      ReachSelf(Out(), With(was, ORDER_2), x);
      Bump(j, x, VISITED);
      SpreadVisited(was, marks[..], x);
    }

    /** The objects with a finalizer in any list. */
    ghost function Listed(lists: seq<seq<nat>>): set<nat> {
      set j, x | 0 <= j < |lists| && x in lists[j] :: x
    }

    /** Along any path, the rounds of dead objects do not grow, and where they get
        smaller everything is fully visited. */
    lemma {:induction false} PathOrdered(m: seq<nat>, turn: seq<nat>, heads: seq<nat>, p: seq<nat>, x: nat, y: nat)
      requires Views() && Ordered(m, turn, heads) && PathIn(Out(), Nodes(Out()), p, x, y) && turn[x] > 0
      ensures y < |m| && m[y] >= ORDER_2 && (m[y] == VISITED || turn[y] == turn[x])
    {
      if |p| > 1 {
        var z := p[|p| - 2];
        PathOrdered(m, turn, heads, p[..|p| - 1], x, z);
        assert y in Out()[z];
        assert EdgeOrdered(m, turn, z, y);
      }
    }

    /** An object from which a round started, and which is still in state 2, is
        reached by no dead object that it does not reach itself. */
    lemma HeadsInOrder(m: seq<nat>, turn: seq<nat>, heads: seq<nat>, x: nat, y: nat)
      requires Views() && Ordered(m, turn, heads) && x < Count() && turn[x] > 0 && Reach(Out(), x, y)
      requires y in heads && m[y] == ORDER_2
      ensures Reach(Out(), y, x)
    {
      var p :| PathIn(Out(), Nodes(Out()), p, x, y);
      PathOrdered(m, turn, heads, p, x, y);
      var t :| 0 <= t < |heads| && heads[t] == y;
      assert turn[heads[t]] == t + 1;
      assert FromHead(turn, heads, x);
    }

    /** The states before any finalizer is considered: exactly what is alive is
        visited. */
    ghost predicate JustMarked(m: seq<nat>)
      requires Views()
    {
      && |m| == Count() && DeadPlain(m)
      && (forall x :: 0 <= x < |m| ==> m[x] < ORDER_1 || m[x] == VISITED)
      && (forall x: nat, y: nat {:trigger y in Out()[x]} :: x < |m| && y in Out()[x] && m[x] == VISITED ==> y < |m| && m[y] == VISITED)
    }

    /** Step 1 was done for the first i lists, in the order 1 to N and then 0. */
    ghost predicate Half1(i: nat, m0: seq<nat>, m: seq<nat>, lists0: seq<seq<nat>>, lists: seq<seq<nat>>,
                          marked: seq<seq<nat>>, heads: seq<nat>)
      requires |m0| == |m| == Count()
    {
      && |lists0| == |lists| == |marked| == |fields|
      && (forall j :: 0 <= j < |lists| ==> multiset(lists0[j]) == multiset(lists[j]) + multiset(marked[j]))
      && (forall j: nat, x: nat {:trigger x in marked[j]} :: j < |lists| && x in marked[j] ==> 0 < x < |m| && Visible(x, j) && m0[x] < ORDER_1 && x in heads)
      && (forall j: nat, x: nat {:trigger x in lists0[j]} :: j < |lists| && Early1(i, j) && x in lists0[j] ==> x < |m| && m[x] >= ORDER_2)
      && (forall j :: 0 <= j < |lists| && !Early1(i, j) ==> marked[j] == [] && lists[j] == lists0[j])
      && (forall x :: x in heads ==> exists j :: 0 <= j < |marked| && x in marked[j])
      && (if heads == [] then m == m0 else heads[|heads| - 1] < |m| && m[heads[|heads| - 1]] == ORDER_2)
    }

    predicate Early1(i: nat, j: nat) { 0 < j <= i || i >= |fields| }

    /** The lists are visited in the order 1 to N, and the global one last. */
    function ListOf(i: nat): nat { if i == |fields| then 0 else i }

    lemma EarlyStep(i: nat, k: nat)
      requires 0 < i <= |fields| && k < |fields|
      ensures Early1(i, k) == (Early1(i - 1, k) || k == ListOf(i))
      ensures !Early1(i - 1, ListOf(i))
    {
    }

    lemma Half1Step(i: nat, j: nat, m0: seq<nat>, m: seq<nat>, m': seq<nat>, lists0: seq<seq<nat>>, lists: seq<seq<nat>>,
                    marked: seq<seq<nat>>, heads: seq<nat>, kept: seq<nat>, one: seq<nat>)
      requires |m0| == |m| == |m'| == Count() && 0 < i <= |fields| && j == ListOf(i) && Views()
      requires Half1(i - 1, m0, m, lists0, lists, marked, heads) && Dealt(j, m0, m, m', lists[j], kept, one) && Advanced(m, m')
      ensures Half1(i, m0, m', lists0, lists[j := kept], marked[j := one], heads + one)
    {
      forall k | 0 <= k < |fields| ensures Early1(i, k) == (Early1(i - 1, k) || k == j) && !Early1(i - 1, j) {
        EarlyStep(i, k);
      }
      var marked' := marked[j := one];
      forall x | x in heads + one ensures exists k :: 0 <= k < |marked'| && x in marked'[k] {
        if x in one { assert x in marked'[j]; } else {
          var k :| 0 <= k < |marked| && x in marked[k];
          assert x in marked'[k];
        }
      }
    }

    /** mark_finalize_step1 for the segments 1 to N and then the global list. */
    method AllStep1(ghost m0: seq<nat>, ghost turn0: seq<nat>)
      returns (marked: seq<seq<nat>>, ghost turn: seq<nat>, ghost heads: seq<nat>)
      requires Views() && ListsOk() && marks.Length == Count() && m0 == marks[..] && JustMarked(m0)
      requires Ordered(m0, turn0, []) && Known(m0, m0, turn0)
      modifies marks, withFinalizers
      ensures ListsOk() && Ordered(marks[..], turn, heads) && Known(m0, marks[..], turn) && Advanced(m0, marks[..])
      ensures Half1(|fields|, m0, marks[..], old(withFinalizers[..]), withFinalizers[..], marked, heads)
    {
      ghost var lists0 := withFinalizers[..];
      marked, turn, heads := seq(|fields|, _ => []), turn0, [];
      var i := 1;
      while i <= |fields|
        invariant 1 <= i <= |fields| + 1 && ListsOk()
        invariant Ordered(marks[..], turn, heads) && Known(m0, marks[..], turn) && Advanced(m0, marks[..])
        invariant Half1(i - 1, m0, marks[..], lists0, withFinalizers[..], marked, heads)
      {
        var j := ListOf(i);
        ghost var m, lists := marks[..], withFinalizers[..];
        var one;
        one, turn := Step1(j, m0, turn, heads);
        Half1Step(i, j, m0, m, marks[..], lists0, lists, marked, heads, withFinalizers[j], one);
        marked, heads := marked[j := one], heads + one;
        i := i + 1;
      }
    }

    /** Step 2 was done for the first i lists. */
    ghost predicate Half2(i: nat, m1: seq<nat>, m: seq<nat>, lists1: seq<seq<nat>>, lists: seq<seq<nat>>,
                          run0: seq<seq<nat>>, run: seq<seq<nat>>, marked: seq<seq<nat>>)
      requires |m1| == |m| == Count()
    {
      && |lists1| == |lists| == |marked| == |run0| == |run| == |fields|
      && (forall j :: 0 <= j < |lists| ==> lists1[j] <= lists[j] && run0[j] <= run[j])
      && (forall j :: 0 <= j < |lists| && !Early1(i, j) ==> lists[j] == lists1[j] && run[j] == run0[j])
      && (forall j :: 0 <= j < |lists| && Early1(i, j) ==>
        multiset(marked[j]) == multiset(lists[j][|lists1[j]|..]) + multiset(run[j][|run0[j]|..]))
      && (forall j: nat, x: nat {:trigger x in marked[j]} :: j < |lists| && Early1(i, j) && x in marked[j] ==> x < |m| && m[x] == VISITED)
      && (forall j: nat, x: nat {:trigger x in run[j][|run0[j]|..]} :: j < |lists| && x in run[j][|run0[j]|..] ==> x < |m| && m1[x] == ORDER_2)
      && ((forall j :: 0 <= j < |run| ==> run[j] == run0[j]) ==> m == m1)
    }

    lemma Half2Step(i: nat, j: nat, m1: seq<nat>, m: seq<nat>, m': seq<nat>, lists1: seq<seq<nat>>, lists: seq<seq<nat>>,
                    run0: seq<seq<nat>>, run: seq<seq<nat>>, marked: seq<seq<nat>>, kept: seq<nat>, queued: seq<nat>)
      requires |m1| == |m| == |m'| == Count() && 0 < i <= |fields| && j == ListOf(i) && Views()
      requires Half2(i - 1, m1, m, lists1, lists, run0, run, marked) && Decided(m1, m, m', marked[j], kept, queued) && Finishing(m, m')
      ensures Half2(i, m1, m', lists1, lists[j := lists[j] + kept], run0, run[j := run[j] + queued], marked)
    {
      forall k | 0 <= k < |fields| ensures Early1(i, k) == (Early1(i - 1, k) || k == j) && !Early1(i - 1, j) {
        EarlyStep(i, k);
      }
      var lists', run' := lists[j := lists[j] + kept], run[j := run[j] + queued];
      assert lists'[j][|lists1[j]|..] == kept && run'[j][|run0[j]|..] == queued;
      forall k: nat, x: nat | k < |run| && k != j && Early1(i - 1, k) && x in marked[k] ensures x < |m| && m'[x] == VISITED {
        assert m[x] == VISITED;
      }
      if forall k :: 0 <= k < |run| ==> run'[k] == run0[k] {
        assert run'[j] == run0[j];
        assert forall k :: 0 <= k < |run| ==> run[k] == run0[k] by {
          forall k | 0 <= k < |run| ensures run[k] == run0[k] { assert run'[k] == run0[k]; }
        }
      }
    }

    method AllStep2(marked: seq<seq<nat>>, ghost m1: seq<nat>)
      requires Views() && ListsOk() && marks.Length == Count() && m1 == marks[..] && Finishing(m1, m1) && |marked| == |fields|
      requires forall j: nat, x: nat {:trigger x in marked[j]} :: j < |marked| && x in marked[j] ==> 0 < x < Count() && Visible(x, j) && m1[x] >= ORDER_2
      modifies marks, withFinalizers, toRun
      ensures ListsOk() && Finishing(m1, marks[..])
      ensures Half2(|fields|, m1, marks[..], old(withFinalizers[..]), withFinalizers[..], old(toRun[..]), toRun[..], marked)
    {
      ghost var lists1, run0 := withFinalizers[..], toRun[..];
      var i := 1;
      while i <= |fields|
        invariant 1 <= i <= |fields| + 1 && ListsOk() && Finishing(m1, marks[..])
        invariant Half2(i - 1, m1, marks[..], lists1, withFinalizers[..], run0, toRun[..], marked)
      {
        var j := ListOf(i);
        ghost var m, lists, run := marks[..], withFinalizers[..], toRun[..];
        Step2(j, marked[j], m1);
        ghost var kept, queued := withFinalizers[j][|lists[j]|..], toRun[j][|run[j]|..];
        assert withFinalizers[j] == lists[j] + kept && toRun[j] == run[j] + queued;
        Half2Step(i, j, m1, m, marks[..], lists1, lists, run0, run, marked, kept, queued);
        i := i + 1;
      }
    }

    /** What the finalizer phase promises, from the states m0 and lists before it
        and m2 and lists after it. */
    ghost predicate WellOrdered(m0: seq<nat>, m2: seq<nat>, lists0: seq<seq<nat>>, lists2: seq<seq<nat>>,
                                run0: seq<seq<nat>>, run2: seq<seq<nat>>)
      requires Views() && |m0| == |m2| == Count()
    {
      && |lists0| == |lists2| == |run0| == |run2| == |fields|
      // every object stays in its list or is queued for its finalizer
      && (forall j :: 0 <= j < |lists0| ==>
        (run0[j] <= run2[j] && multiset(lists0[j]) == multiset(lists2[j]) + multiset(run2[j][|run0[j]|..])))
      // only dead objects are queued, and none that an older dead object needs
      && (forall j: nat, x: nat, y: nat {:trigger Reach(Out(), x, y), y in run2[j][|run0[j]|..]} ::
            (j < |lists0| && y in run2[j][|run0[j]|..] && x in Listed(lists0) && x < Count() && m0[x] != VISITED
             && Reach(Out(), x, y)) ==> Reach(Out(), y, x))
      && (forall j: nat, y: nat {:trigger y in run2[j][|run0[j]|..]} ::
            j < |lists0| && y in run2[j][|run0[j]|..] ==> y < Count() && m0[y] != VISITED)
      // something is queued if anything is dead
      && ((exists x :: x in Listed(lists0) && x < Count() && m0[x] != VISITED) ==> exists j :: 0 <= j < |run0| && run2[j] != run0[j])
      // what objects with finalizers need is visited, and no other mark changed
      && (forall y :: 0 <= y < Count() ==>
            m2[y] == if m0[y] == VISITED || ReachedFrom(Listed(lists0), y) then VISITED else m0[y])
    }

    /** deal_with_objects_with_finalizers */
    method DealWithFinalizers()
      requires Views() && ListsOk() && marks.Length == Count() && JustMarked(marks[..])
      modifies marks, withFinalizers, toRun
      ensures ListsOk()
      ensures WellOrdered(old(marks[..]), marks[..], old(withFinalizers[..]), withFinalizers[..], old(toRun[..]), toRun[..])
    {
      ghost var m0, lists0, run0 := marks[..], withFinalizers[..], toRun[..];
      ghost var turn0: seq<nat> := seq(Count(), _ => 0);
      NothingReached(m0, turn0);
      var marked;
      ghost var turn, heads;
      marked, turn, heads := AllStep1(m0, turn0);
      ghost var m1, lists1 := marks[..], withFinalizers[..];
      StartFinishing(m1, turn, heads);
      forall j: nat, x: nat | j < |marked| && x in marked[j] ensures 0 < x < Count() && Visible(x, j) && m1[x] >= ORDER_2 {
        assert x in multiset(marked[j]) && x in multiset(lists0[j]) && Early1(|fields|, j);
        assert x in lists0[j];
      }
      AllStep2(marked, m1);
      ghost var o := Ordering(m0, m1, marks[..], lists0, lists1, withFinalizers[..], run0, toRun[..], marked, turn, heads);
      OrderingWorks(o);
    }

    lemma NothingReached(m: seq<nat>, turn: seq<nat>)
      requires Views() && JustMarked(m) && |turn| == Count() && forall x :: 0 <= x < |turn| ==> turn[x] == 0
      ensures Ordered(m, turn, []) && Known(m, m, turn)
    {
      forall x: nat, y: nat | x < |m| && y in Out()[x] ensures y < |m| && EdgeOrdered(m, turn, x, y) {
        var s :| 0 <= s < |fields| && y in fields[s][x] && y != 0;
      }
    }

    lemma StartFinishing(m: seq<nat>, turn: seq<nat>, heads: seq<nat>)
      requires Views() && Ordered(m, turn, heads)
      ensures Finishing(m, m)
    {
      forall a: nat, b: nat | a < |m| && b in Out()[a] ensures b < |m| && EdgeOrdered(m, turn, a, b) {}
    }

    /** Everything that happened, as values. */
    ghost predicate Happened(o: Ordering)
      requires Views()
    {
      && |o.m0| == |o.m1| == |o.m2| == Count()
      && JustMarked(o.m0) && Ordered(o.m1, o.turn, o.heads) && Known(o.m0, o.m1, o.turn) && Advanced(o.m0, o.m1)
      && Half1(|fields|, o.m0, o.m1, o.lists0, o.lists1, o.marked, o.heads)
      && Finishing(o.m1, o.m2) && Half2(|fields|, o.m1, o.m2, o.lists1, o.lists2, o.run0, o.run2, o.marked)
    }

    ghost function Queued(o: Ordering, j: nat): seq<nat>
      requires j < |o.run0| && j < |o.run2| && |o.run0[j]| <= |o.run2[j]|
    {
      o.run2[j][|o.run0[j]|..]
    }

    lemma QueuedIsHead(o: Ordering, j: nat, y: nat)
      requires Views() && Happened(o) && j < |fields| && y in Queued(o, j)
      ensures y in o.heads && y < Count() && o.m1[y] == ORDER_2 && o.m0[y] < ORDER_1
    {
      assert Early1(|fields|, j);
      assert y in multiset(Queued(o, j)) && y in multiset(o.marked[j]);
      assert y in o.marked[j];
    }

    lemma HeadIsMarked(o: Ordering, h: nat)
      requires Views() && Happened(o) && h in o.heads
      ensures h in Listed(o.lists0) && h < Count() && o.m2[h] == VISITED
    {
      var j :| 0 <= j < |o.marked| && h in o.marked[j];
      assert Early1(|fields|, j);
      assert h in multiset(o.marked[j]) && h in multiset(o.lists0[j]);
      assert h in o.lists0[j];
    }

    lemma ListedIsReached(o: Ordering, x: nat)
      requires Views() && Happened(o) && x in Listed(o.lists0)
      ensures x < Count() && o.m1[x] >= ORDER_2 && (o.m0[x] != VISITED ==> o.turn[x] > 0)
    {
      var j :| 0 <= j < |o.lists0| && x in o.lists0[j];
      assert Early1(|fields|, j);
    }

    /** At the end nothing is left in state 2. */
    lemma NoneLeft(o: Ordering, y: nat)
      requires Views() && Happened(o) && y < Count()
      ensures o.m2[y] != ORDER_1 && o.m2[y] != ORDER_2
      ensures o.m2[y] == VISITED && o.m0[y] != VISITED ==> ReachedFrom(Listed(o.lists0), y)
    {
      if o.turn[y] > 0 {
        assert FromHead(o.turn, o.heads, y);
        var h := o.heads[o.turn[y] - 1];
        HeadIsMarked(o, h);
        VisitedStays(o.m2, h, y);
      }
    }

    lemma VisitedStays(m: seq<nat>, x: nat, y: nat)
      requires Views() && |m| == Count() && Reach(Out(), x, y) && x < Count() && m[x] == VISITED
      requires forall a: nat, b: nat {:trigger b in Out()[a]} :: a < |m| && b in Out()[a] && m[a] == VISITED ==> b < |m| && m[b] == VISITED
      ensures y < Count() && m[y] == VISITED
    {
      ReachStays(Out(), Nodes(Out()), With(m, VISITED), x, y);
    }

    lemma FinalMark(o: Ordering, y: nat)
      requires Views() && Happened(o) && y < Count()
      ensures o.m2[y] == if o.m0[y] == VISITED || ReachedFrom(Listed(o.lists0), y) then VISITED else o.m0[y]
    {
      NoneLeft(o, y);
      if ReachedFrom(Listed(o.lists0), y) {
        var x :| x in Listed(o.lists0) && Reach(Out(), x, y);
        ListedIsReached(o, x);
        NoneLeft(o, x);
        VisitedStays(o.m2, x, y);
      }
    }

    lemma SomethingQueued(o: Ordering, x: nat)
      requires Views() && Happened(o) && x in Listed(o.lists0) && x < Count() && o.m0[x] != VISITED
      ensures exists j :: 0 <= j < |o.run0| && o.run2[j] != o.run0[j]
    {
      ListedIsReached(o, x);
      assert o.heads != [] by {
        assert FromHead(o.turn, o.heads, x);
      }
      var h := o.heads[|o.heads| - 1];
      HeadIsMarked(o, h);
      assert o.m1[h] == ORDER_2;
      assert o.m2 != o.m1;
    }

    lemma OrderingWorks(o: Ordering)
      requires Views() && Happened(o)
      ensures WellOrdered(o.m0, o.m2, o.lists0, o.lists2, o.run0, o.run2)
    {
      forall j | 0 <= j < |fields|
        ensures o.run0[j] <= o.run2[j] && multiset(o.lists0[j]) == multiset(o.lists2[j]) + multiset(o.run2[j][|o.run0[j]|..])
      {
        assert Early1(|fields|, j);
        assert o.lists2[j] == o.lists1[j] + o.lists2[j][|o.lists1[j]|..];
      }
      forall j: nat, x: nat, y: nat | j < |fields| && y in o.run2[j][|o.run0[j]|..] && x in Listed(o.lists0) && x < Count()
                                      && o.m0[x] != VISITED && Reach(Out(), x, y)
        ensures Reach(Out(), y, x)
      {
        assert y in Queued(o, j);
        QueuedIsHead(o, j, y);
        ListedIsReached(o, x);
        HeadsInOrder(o.m1, o.turn, o.heads, x, y);
      }
      forall j: nat, y: nat | j < |fields| && y in o.run2[j][|o.run0[j]|..] ensures y < Count() && o.m0[y] != VISITED {
        assert y in Queued(o, j);
        QueuedIsHead(o, j, y);
      }
      if x :| x in Listed(o.lists0) && x < Count() && o.m0[x] != VISITED { SomethingQueued(o, x); }
      forall y | 0 <= y < Count()
        ensures o.m2[y] == if o.m0[y] == VISITED || ReachedFrom(Listed(o.lists0), y) then VISITED else o.m0[y]
      {
        FinalMark(o, y);
      }
    }

    // ----- the whole collection

    /** The write locks between two collections. */
    ghost predicate LocksHeld(m: seq<nat>)
      requires Views()
    {
      && |m| == Count() && |fields| < ORDER_1
      && (forall s :: 0 <= s < |modified| ==> forall i, k :: 0 <= i < k < |modified[s]| ==> modified[s][i] != modified[s][k])
      && (forall s: nat, o: nat {:trigger o in modified[s]} :: s < |modified| && o in modified[s] ==> o < |m| && m[o] == s)
      && (forall o :: 0 <= o < |m| && !Modified(o) ==> m[o] == 0)
    }

    lemma MarkedIsClosed(seeds: set<nat>, was: seq<nat>)
      requires Views() && marks.Length == Count() && AllModified() <= seeds && LocksHeld(was) && Grew(was)
      requires forall x :: 0 <= x < Count() ==> (Marked(x) <==> ReachedFrom(seeds, x))
      ensures JustMarked(marks[..])
    {
      forall x: nat | x < Count() && Modified(x) ensures Marked(x) {
        var s: nat :| s < |modified| && x in modified[s];
        ModifiedIsOld(s, x);
        ReachSelf(Out(), Nodes(Out()), x);
      }
      forall x: nat, y: nat | x < Count() && y in Out()[x] && Marked(x) ensures y < Count() && marks[y] == VISITED {
        var s :| 0 <= s < |fields| && y in fields[s][x] && y != 0;
        var r :| r in seeds && Reach(Out(), r, x);
        ReachStep(Out(), Nodes(Out()), r, x, y);
        assert Marked(y);
      }
      forall x | 0 <= x < Count() ensures marks[x] < ORDER_1 || marks[x] == VISITED {
        if Modified(x) { assert Marked(x); } else { assert was[x] == 0; }
      }
    }

    /** _stm_largemalloc_sweep, as far as the marks go: frees what is not marked
        and clears the marks. */
    method Sweep() returns (kept: seq<bool>)
      modifies marks
      ensures |kept| == marks.Length
      ensures forall o :: 0 <= o < marks.Length ==>
        kept[o] == (old(marks[o]) == VISITED) && marks[o] == if kept[o] then 0 else old(marks[o])
    {
      kept := [];
      var o := 0;
      while o < marks.Length
        invariant |kept| == o <= marks.Length
        invariant forall p :: 0 <= p < o ==> kept[p] == (old(marks[p]) == VISITED) && marks[p] == if kept[p] then 0 else old(marks[p])
        invariant forall p :: o <= p < marks.Length ==> marks[p] == old(marks[p])
      {
        kept := kept + [marks[o] == VISITED];
        if marks[o] == VISITED {
          marks[o] := 0;
        }
        o := o + 1;
      }
    }

    /** major_restore_write_locks */
    method RestoreLocks(ghost was: seq<nat>)
      requires Views() && LocksHeld(was) && marks.Length == Count() && forall o :: 0 <= o < Count() ==> marks[o] == 0
      modifies marks
      ensures marks[..] == was
    {
      var i := 1;
      while i < |modified|
        invariant 1 <= i <= |modified|
        invariant forall o :: 0 <= o < Count() ==> marks[o] == if was[o] < i then was[o] else 0
      {
        var k := |modified[i]|;
        while k > 0
          invariant 0 <= k <= |modified[i]|
          invariant forall o :: 0 <= o < Count() ==>
            marks[o] == if was[o] < i || (was[o] == i && o in modified[i][k..]) then was[o] else 0
        {
          k := k - 1;
          assert modified[i][k..] == [modified[i][k]] + modified[i][k + 1..];
          assert modified[i][k] in modified[i] && modified[i][k] !in modified[i][k + 1..];
          assert marks[modified[i][k]] == 0;
          marks[modified[i][k]] := i;
        }
        assert modified[i][0..] == modified[i];
        forall o | 0 <= o < Count() && was[o] == i ensures o in modified[i] {
          assert Modified(o);
          var s :| 0 <= s < |modified| && o in modified[s];
        }
        i := i + 1;
      }
      forall o | 0 <= o < Count() ensures was[o] < |modified| {
        if Modified(o) { var s :| 0 <= s < |modified| && o in modified[s]; }
      }
    }

    /** major_collection_now_at_safe_point: marks, orders the finalizers, sweeps
        and restores the write locks.  What is kept is what some segment can
        reach from a root or from something modified, and what an object with a
        finalizer needs; so whatever any segment sees from a root is kept. */
    method MajorCollection(roots: seq<(nat, nat)>) returns (kept: seq<bool>, ghost m0: seq<nat>, ghost m2: seq<nat>)
      requires Valid() && toTrace == [] && RootsValid(roots) && ListsOk() && LocksHeld(marks[..])
      modifies this`toTrace, marks, withFinalizers, toRun
      ensures Valid() && ListsOk() && marks[..] == old(marks[..]) && |kept| == |m0| == |m2| == Count()
      ensures forall o :: 0 <= o < Count() ==> (m0[o] == VISITED <==> ReachedFrom(Seeds(roots), o))
      ensures forall o :: 0 <= o < Count() ==>
        (kept[o] <==> ReachedFrom(Seeds(roots), o) || ReachedFrom(Listed(old(withFinalizers[..])), o))
      ensures forall s: nat, x: nat {:trigger SeenFrom(roots, s, x)} :: s < |fields| && SeenFrom(roots, s, x) ==> x < Count() && kept[x]
      ensures WellOrdered(m0, m2, old(withFinalizers[..]), withFinalizers[..], old(toRun[..]), toRun[..])
    {
      ghost var was := marks[..];
      LocksAreNotMarks(was);
      Mark(roots);
      MarkedIsClosed(Seeds(roots), was);
      m0 := marks[..];
      DealWithFinalizers();
      m2 := marks[..];
      kept := Sweep();
      forall o | 0 <= o < Count() && !kept[o] ensures was[o] == 0 { assert m0[o] != VISITED && !Modified(o); }
      RestoreLocks(was);
      forall s: nat, x: nat | s < |fields| && SeenFrom(roots, s, x) ensures x < Count() && kept[x] { MarkedInEveryView(roots, s, x); }
    }

    lemma LocksAreNotMarks(m: seq<nat>)
      requires Views() && LocksHeld(m)
      ensures forall o :: 0 <= o < |m| ==> m[o] < ORDER_1
    {
      forall o | 0 <= o < |m| ensures m[o] < ORDER_1 {
        if Modified(o) { var s :| 0 <= s < |modified| && o in modified[s]; }
      }
    }
  }
}
