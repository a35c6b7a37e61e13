/** The linked lists behind the bins (largemalloc.c): the circular `d` list of a
    bin runs through the bottoms of its columns and its unsorted tail, the `u`
    lists run through the columns. */
module BinLinks {
  import opened Bins

  datatype Link = Null | Unsorted | At(chunk: nat)   // u.up, u.down; Unsorted is UU_UNSORTED

  datatype Links = Links(next: seq<nat>, prev: seq<nat>, up: seq<Link>, down: seq<Link>) {
    ghost predicate Sized(n: nat) { |next| == |prev| == |up| == |down| == n }
  }

  ghost predicate NoRepeat(s: seq<nat>) { forall i, j :: 0 <= i < j < |s| ==> s[i] != s[j] }

  // ----- the circular list

  function Loop(head: nat, ring: seq<nat>): (l: seq<nat>)
    ensures |l| == |ring| + 2
  {
    [head] + ring + [head]
  }

  predicate Joined(next: seq<nat>, prev: seq<nat>, l: seq<nat>, k: nat) {
    k + 1 < |l| && l[k] < |next| && l[k + 1] < |prev| && next[l[k]] == l[k + 1] && prev[l[k + 1]] == l[k]
  }

  /** The list that starts and ends at `head` goes through `ring`. */
  ghost predicate Ring(next: seq<nat>, prev: seq<nat>, head: nat, ring: seq<nat>) {
    |next| == |prev| && forall k: nat {:trigger Joined(next, prev, Loop(head, ring), k)} ::
      k < |ring| + 1 ==> Joined(next, prev, Loop(head, ring), k)
  }

  lemma RingNeighbours(next: seq<nat>, prev: seq<nat>, head: nat, ring: seq<nat>, k: nat)
    requires Ring(next, prev, head, ring) && k <= |ring|
    ensures var l := Loop(head, ring); l[k] < |next| && l[k + 1] < |next| && next[l[k]] == l[k + 1] && prev[l[k + 1]] == l[k]
  {
    assert Joined(next, prev, Loop(head, ring), k);
  }

  lemma RingFrame(next: seq<nat>, prev: seq<nat>, next': seq<nat>, prev': seq<nat>, head: nat, ring: seq<nat>)
    requires Ring(next, prev, head, ring) && |next'| == |next| && |prev'| == |prev|
    requires forall x :: x in [head] + ring && x < |next| ==> next'[x] == next[x] && prev'[x] == prev[x]
    ensures Ring(next', prev', head, ring)
  {
    var l := Loop(head, ring);
    forall k: nat | k < |ring| + 1 ensures Joined(next', prev', l, k) {
      assert Joined(next, prev, l, k);
      assert l[k] in [head] + ring && l[k + 1] in [head] + ring;
    }
  }

  /** New element x between positions k - 1 and k. */
  lemma RingInserted(next: seq<nat>, prev: seq<nat>, head: nat, ring: seq<nat>, k: nat, x: nat)
    requires Ring(next, prev, head, ring) && NoRepeat([head] + ring) && x !in [head] + ring && x < |next| && k <= |ring|
    ensures var a, b := Loop(head, ring)[k], Loop(head, ring)[k + 1];
      a < |next| && b < |next| && Ring(next[a := x][x := b], prev[x := a][b := x], head, ring[..k] + [x] + ring[k..])
  {
    RingNeighbours(next, prev, head, ring, k);
    var l, ring' := Loop(head, ring), ring[..k] + [x] + ring[k..];
    var a, b, l' := l[k], l[k + 1], Loop(head, ring');
    var next', prev' := next[a := x][x := b], prev[x := a][b := x];
    forall j: nat | j < |ring'| + 1 ensures Joined(next', prev', l', j) {
      assert l'[j] == if j <= k then l[j] else if j == k + 1 then x else l[j - 1];
      assert l'[j + 1] == if j < k then l[j + 1] else if j == k then x else l[j];
      InsertedOnce(head, ring, k, x, if j <= k then j else j - 1);
      if j < k { assert Joined(next, prev, l, j); }
      if j > k + 1 { assert Joined(next, prev, l, j - 1); }
    }
  }

  /** Position k is the only one where the list meets what it has there. */
  lemma InsertedOnce(head: nat, ring: seq<nat>, k: nat, x: nat, j: nat)
    requires NoRepeat([head] + ring) && x !in [head] + ring && k <= |ring| && j <= |ring|
    ensures var l := Loop(head, ring);
      l[j] != x && l[j + 1] != x && (j != k ==> l[j] != l[k] && l[j + 1] != l[k + 1])
  {
    var l, s := Loop(head, ring), [head] + ring;
    assert forall i :: 0 <= i <= |ring| ==> l[i] == s[i];
    assert l[j + 1] == if j == |ring| then s[0] else s[j + 1];
    assert l[k + 1] == if k == |ring| then s[0] else s[k + 1];
    assert l[j] in s && l[j + 1] in s;
  }

  lemma RingRemoved(next: seq<nat>, prev: seq<nat>, head: nat, ring: seq<nat>, k: nat)
    requires Ring(next, prev, head, ring) && NoRepeat([head] + ring) && k < |ring|
    ensures var x := ring[k];
      && x < |next| && prev[x] < |next| && next[x] < |next|
      && Ring(next[prev[x] := next[x]], prev[next[x] := prev[x]], head, ring[..k] + ring[k + 1..])
      && prev[x] == Loop(head, ring)[k] && next[x] == Loop(head, ring)[k + 2]
      && prev[x] != x && next[x] != x
  {
    RingNeighbours(next, prev, head, ring, k);
    RingNeighbours(next, prev, head, ring, k + 1);
    var l, ring' := Loop(head, ring), ring[..k] + ring[k + 1..];
    var x := ring[k];
    assert l[k + 1] == x;
    var l' := Loop(head, ring');
    var next', prev' := next[prev[x] := next[x]], prev[next[x] := prev[x]];
    forall j: nat | j < |ring'| + 1 ensures Joined(next', prev', l', j) {
      assert l'[j] == if j <= k then l[j] else l[j + 1];
      assert l'[j + 1] == if j < k then l[j + 1] else l[j + 2];
      if j < k { Once(head, ring, j, k); Once(head, ring, j, k + 1); assert Joined(next, prev, l, j); }
      if j > k { Once(head, ring, j + 1, k); Once(head, ring, j + 1, k + 1); assert Joined(next, prev, l, j + 1); }
    }
    Once(head, ring, k, k + 1);
  }

  lemma Once(head: nat, ring: seq<nat>, j: nat, k: nat)
    requires NoRepeat([head] + ring) && k <= |ring| && j <= |ring| && j != k
    ensures var l := Loop(head, ring); l[j] != l[k] && l[j + 1] != l[k + 1]
  {
    var l, s := Loop(head, ring), [head] + ring;
    assert forall i :: 0 <= i <= |ring| ==> l[i] == s[i];
    assert l[j + 1] == if j == |ring| then s[0] else s[j + 1];
    assert l[k + 1] == if k == |ring| then s[0] else s[k + 1];
  }

  /** y takes the place of ring[k]. */
  lemma RingReplaced(next: seq<nat>, prev: seq<nat>, head: nat, ring: seq<nat>, k: nat, y: nat)
    requires Ring(next, prev, head, ring) && NoRepeat([head] + ring) && k < |ring| && y !in [head] + ring && y < |next|
    ensures var x := ring[k];
      && x < |next| && prev[x] < |next| && next[x] < |next|
      && Ring(next[prev[x] := y][y := next[x]], prev[next[x] := y][y := prev[x]], head, ring[k := y])
      && prev[x] != x && next[x] != x && prev[x] in [head] + ring && next[x] in [head] + ring
  {
    RingRemoved(next, prev, head, ring, k);
    var x := ring[k];
    var a, b, ring' := prev[x], next[x], ring[..k] + ring[k + 1..];
    RemovedNoRepeat(head, ring, k);
    assert forall z :: z in [head] + ring' ==> z in [head] + ring;
    assert a in [head] + ring && b in [head] + ring;
    assert Loop(head, ring')[k] == a && Loop(head, ring')[k + 1] == b;
    RingInserted(next[a := b], prev[b := a], head, ring', k, y);
    assert ring'[..k] + [y] + ring'[k..] == ring[k := y];
    assert next[a := b][a := y][y := b] == next[a := y][y := b];
    assert prev[b := a][y := a][b := y] == prev[b := y][y := a];
  }

  lemma RemovedNoRepeat(head: nat, ring: seq<nat>, k: nat)
    requires NoRepeat([head] + ring) && k < |ring|
    ensures NoRepeat([head] + (ring[..k] + ring[k + 1..]))
  {
    var s, t := [head] + ring, [head] + (ring[..k] + ring[k + 1..]);
    assert forall i :: 0 <= i < |t| ==> t[i] == s[if i <= k then i else i + 1];
  }

  /** The list ends after its first k elements. */
  lemma RingCut(next: seq<nat>, prev: seq<nat>, head: nat, ring: seq<nat>, k: nat)
    requires Ring(next, prev, head, ring) && NoRepeat([head] + ring) && k <= |ring|
    ensures var a := Loop(head, ring)[k];
      a < |next| && head < |next| && Ring(next[a := head], prev[head := a], head, ring[..k])
  {
    RingNeighbours(next, prev, head, ring, k);
    RingNeighbours(next, prev, head, ring, 0);
    var l, l' := Loop(head, ring), Loop(head, ring[..k]);
    var next', prev' := next[l[k] := head], prev[head := l[k]];
    forall j: nat | j < k + 1 ensures Joined(next', prev', l', j) {
      assert l'[j] == l[j] && l'[j + 1] == if j < k then l[j + 1] else head;
      if j < k {
        Once(head, ring, j, k);
        if k <= |ring| { Once(head, ring, j, |ring|); }
        assert Joined(next, prev, l, j);
      }
    }
  }

  // ----- columns

  predicate Stacked(up: seq<Link>, down: seq<Link>, c: seq<nat>, k: nat) {
    && k < |c| && c[k] < |up| && c[k] < |down|
    && down[c[k]] == (if k == 0 then Null else At(c[k - 1]))
    && up[c[k]] == (if k == |c| - 1 then Null else At(c[k + 1]))
  }

  /** The chunks of a column, linked upwards and downwards. */
  ghost predicate Column(up: seq<Link>, down: seq<Link>, c: seq<nat>) {
    |up| == |down| && forall k: nat {:trigger Stacked(up, down, c, k)} :: k < |c| ==> Stacked(up, down, c, k)
  }

  lemma ColumnFrame(up: seq<Link>, down: seq<Link>, up': seq<Link>, down': seq<Link>, c: seq<nat>)
    requires Column(up, down, c) && |up'| == |up| && |down'| == |down|
    requires forall x :: x in c && x < |up| ==> up'[x] == up[x] && down'[x] == down[x]
    ensures Column(up', down', c)
  {
    forall k: nat | k < |c| ensures Stacked(up', down', c, k) {
      assert Stacked(up, down, c, k) && c[k] in c;
    }
  }

  /** x is put just above the bottom. */
  lemma ColumnPushed(up: seq<Link>, down: seq<Link>, c: seq<nat>, x: nat)
    requires Column(up, down, c) && NoRepeat(c) && |c| > 0 && x !in c && x < |up|
    ensures c[0] < |up| && (up[c[0]].At? ==> up[c[0]].chunk < |up|)
    ensures Column(up[x := up[c[0]]][c[0] := At(x)],
                   if up[c[0]].At? then down[x := At(c[0])][up[c[0]].chunk := At(x)] else down[x := At(c[0])],
                   [c[0], x] + c[1..])
  {
    assert Stacked(up, down, c, 0);
    if |c| > 1 { assert Stacked(up, down, c, 1); }
    var c' := [c[0], x] + c[1..];
    var up' := up[x := up[c[0]]][c[0] := At(x)];
    var down' := if up[c[0]].At? then down[x := At(c[0])][up[c[0]].chunk := At(x)] else down[x := At(c[0])];
    forall k: nat | k < |c'| ensures Stacked(up', down', c', k) {
      assert c'[k] == if k == 0 then c[0] else if k == 1 then x else c[k - 1];
      if k > 1 {
        assert Stacked(up, down, c, k - 1) && c[k - 1] != c[0] && c[k - 1] in c;
        if k > 2 { assert c[k - 1] != c[1]; }
      }
    }
  }

  /** A chunk that is not at the bottom leaves. */
  lemma ColumnRemoved(up: seq<Link>, down: seq<Link>, c: seq<nat>, k: nat)
    requires Column(up, down, c) && NoRepeat(c) && 0 < k < |c|
    ensures c[k] < |up| && c[k - 1] < |up| && down[c[k]] == At(c[k - 1])
    ensures up[c[k]].At? ==> up[c[k]].chunk < |up| && up[c[k]].chunk in c
    ensures Column(up[c[k - 1] := up[c[k]]], if up[c[k]].At? then down[up[c[k]].chunk := At(c[k - 1])] else down, c[..k] + c[k + 1..])
  {
    assert Stacked(up, down, c, k) && Stacked(up, down, c, k - 1);
    if k + 1 < |c| { assert Stacked(up, down, c, k + 1); }
    var c' := c[..k] + c[k + 1..];
    var up' := up[c[k - 1] := up[c[k]]];
    var down' := if up[c[k]].At? then down[up[c[k]].chunk := At(c[k - 1])] else down;
    forall j: nat | j < |c'| ensures Stacked(up', down', c', j) {
      var i := if j < k then j else j + 1;
      assert c'[j] == c[i] && Stacked(up, down, c, i);
      assert i != k - 1 ==> c[i] != c[k - 1];
      assert i != k + 1 && k + 1 < |c| ==> c[i] != c[k + 1];
    }
  }

  /** The bottom leaves, and the chunk above becomes the bottom. */
  lemma ColumnLowered(up: seq<Link>, down: seq<Link>, c: seq<nat>)
    requires Column(up, down, c) && NoRepeat(c) && |c| > 1
    ensures c[0] < |up| && c[1] < |up| && up[c[0]] == At(c[1]) && down[c[0]] == Null
    ensures Column(up, down[c[1] := Null], c[1..])
  {
    assert Stacked(up, down, c, 0) && Stacked(up, down, c, 1);
    var c', down' := c[1..], down[c[1] := Null];
    forall j: nat | j < |c'| ensures Stacked(up, down', c', j) {
      assert Stacked(up, down, c, j + 1);
      assert j > 0 ==> c[j + 1] != c[1];
    }
  }

  // ----- bins

  function Bottom(c: seq<nat>): nat { if c == [] then 0 else c[0] }

  function Bottoms(columns: seq<seq<nat>>): (r: seq<nat>)
    ensures |r| == |columns| && forall j :: 0 <= j < |r| ==> r[j] == Bottom(columns[j])
  {
    seq(|columns|, j requires 0 <= j < |columns| => Bottom(columns[j]))
  }

  /** The `d` list of a bin. */
  function RingOf(b: Bin): (r: seq<nat>)
    ensures |r| == |b.sorted| + |b.unsorted|
  {
    Bottoms(b.sorted) + b.unsorted
  }

  ghost predicate IsUnsorted(l: Links, x: nat) { x < |l.up| && x < |l.down| && l.up[x] == Unsorted && l.down[x] == Null }

  /** The links say what the bin holds. */
  ghost predicate Linked(l: Links, head: nat, b: Bin) {
    && Ring(l.next, l.prev, head, RingOf(b))
    && (forall j :: 0 <= j < |b.sorted| ==> |b.sorted[j]| > 0 && Column(l.up, l.down, b.sorted[j]))
    && (forall x :: x in b.unsorted ==> IsUnsorted(l, x))
  }

  /** x is in bin b. */
  ghost predicate In(b: Bin, x: nat) { x in b.unsorted || exists j :: 0 <= j < |b.sorted| && x in b.sorted[j] }

  lemma InMembers(b: Bin, x: nat)
    ensures x in Members(b) <==> In(b, x)
  {
    if In(b, x) && x !in b.unsorted {
      var j :| 0 <= j < |b.sorted| && x in b.sorted[j];
      InFlat(b.sorted, j, x);
    }
    if x in multiset(Flat(b.sorted)) { var j := FindInFlat(b.sorted, x); }
  }

  /** Each chunk is in the bin at most once. */
  ghost predicate Simple(b: Bin) { forall x: nat {:trigger Members(b)[x]} :: Members(b)[x] <= 1 }

  lemma Twice(s: seq<nat>, i: nat, j: nat)
    requires i < j < |s|
    ensures s[i] == s[j] ==> multiset(s)[s[i]] >= 2
  {
    assert s == s[..j] + s[j..] && s[i] in s[..j] && s[j] in s[j..];
    assert multiset(s) == multiset(s[..j]) + multiset(s[j..]);
    assert multiset(s[..j])[s[i]] >= 1 && multiset(s[j..])[s[j]] >= 1;
  }

  lemma AtMostOnce(s: seq<nat>)
    requires forall x: nat {:trigger multiset(s)[x]} :: multiset(s)[x] <= 1
    ensures NoRepeat(s)
  {
    forall i, j | 0 <= i < j < |s| ensures s[i] != s[j] { Twice(s, i, j); }
  }

  lemma SimpleColumn(b: Bin, j: nat)
    requires Simple(b) && j < |b.sorted|
    ensures NoRepeat(b.sorted[j]) && forall x :: x in b.sorted[j] ==> x !in b.unsorted
  {
    FlatAround(b.sorted, j);
    forall x: nat ensures multiset(b.sorted[j])[x] <= 1 {
      assert Members(b)[x] >= multiset(b.sorted[j])[x];
    }
    AtMostOnce(b.sorted[j]);
    forall x | x in b.sorted[j] ensures x !in b.unsorted {
      assert Members(b)[x] == multiset(Flat(b.sorted))[x] + multiset(b.unsorted)[x];
      assert multiset(Flat(b.sorted))[x] >= multiset(b.sorted[j])[x] >= 1;
    }
  }

  lemma SimpleColumns(b: Bin, i: nat, j: nat, x: nat)
    requires Simple(b) && i < |b.sorted| && j < |b.sorted| && i != j && x in b.sorted[i]
    ensures x !in b.sorted[j]
  {
    if i < j { FlatTwice(b.sorted, i, j, x); } else { FlatTwice(b.sorted, j, i, x); }
    assert Members(b)[x] >= multiset(Flat(b.sorted))[x];
  }

  lemma FlatTwice(columns: seq<seq<nat>>, i: nat, j: nat, x: nat)
    requires i < j < |columns|
    ensures x in columns[i] && x in columns[j] ==> multiset(Flat(columns))[x] >= 2
  {
    FlatAround(columns, i);
    if x in columns[j] {
      InFlat(columns[i + 1..], j - i - 1, x);
      assert multiset(Flat(columns)) == multiset(Flat(columns[..i])) + multiset(columns[i]) + multiset(Flat(columns[i + 1..]));
    }
  }

  lemma SimpleRing(b: Bin, head: nat)
    requires Simple(b) && !In(b, head) && forall j :: 0 <= j < |b.sorted| ==> |b.sorted[j]| > 0
    ensures NoRepeat([head] + RingOf(b)) && forall x :: x in RingOf(b) ==> In(b, x)
  {
    var r, n := RingOf(b), |b.sorted|;
    forall x: nat ensures multiset(b.unsorted)[x] <= 1 {
      assert Members(b)[x] >= multiset(b.unsorted)[x];
    }
    AtMostOnce(b.unsorted);
    forall i | 0 <= i < |r| ensures In(b, r[i]) {
      if i < n { assert r[i] in b.sorted[i]; }
    }
    forall i, j | 0 <= i < j < |r| ensures r[i] != r[j] {
      if i < n {
        assert r[i] in b.sorted[i];
        SimpleColumn(b, i);
        if j < n { SimpleColumns(b, i, j, r[i]); }
      }
    }
    var s := [head] + r;
    assert forall i :: 0 < i < |s| ==> s[i] == r[i - 1] && In(b, s[i]);
  }

  lemma LinkedFrame(l: Links, l': Links, head: nat, b: Bin)
    requires Linked(l, head, b) && |l'.next| == |l.next| && |l'.prev| == |l.prev| && |l'.up| == |l.up| && |l'.down| == |l.down|
    requires forall x: nat :: x < |l.next| && x < |l.prev| && (x == head || In(b, x)) ==> l'.next[x] == l.next[x] && l'.prev[x] == l.prev[x]
    requires forall x: nat :: x < |l.up| && x < |l.down| && In(b, x) ==> l'.up[x] == l.up[x] && l'.down[x] == l.down[x]
    ensures Linked(l', head, b)
  {
    forall x | x in RingOf(b) ensures In(b, x) {
      var i :| 0 <= i < |RingOf(b)| && RingOf(b)[i] == x;
      if i < |b.sorted| { assert x in b.sorted[i]; }
    }
    RingFrame(l.next, l.prev, l'.next, l'.prev, head, RingOf(b));
    forall j | 0 <= j < |b.sorted| ensures Column(l'.up, l'.down, b.sorted[j]) {
      ColumnFrame(l.up, l.down, l'.up, l'.down, b.sorted[j]);
    }
  }

  // ----- what the operations on the links do to a bin

  /** Links that differ only at one bin and at x. */
  ghost predicate ChangesOnly(l: Links, l': Links, head: nat, b: Bin, x: nat) {
    && |l'.next| == |l.next| && |l'.prev| == |l.prev| && |l'.up| == |l.up| && |l'.down| == |l.down|
    && (forall y: nat :: y < |l.next| && y < |l.prev| && y != head && y != x && !In(b, y) ==> l'.next[y] == l.next[y] && l'.prev[y] == l.prev[y])
    && (forall y: nat :: y < |l.up| && y < |l.down| && y != x && !In(b, y) ==> l'.up[y] == l.up[y] && l'.down[y] == l.down[y])
  }

  ghost predicate BinReady(l: Links, head: nat, b: Bin) {
    l.Sized(|l.next|) && Linked(l, head, b) && Simple(b) && !In(b, head)
  }

  /** insert_unsorted */
  function Appended(l: Links, head: nat, x: nat): Links
    requires l.Sized(|l.next|) && head < |l.prev| && l.prev[head] < |l.next| && x < |l.next|
  {
    Links(l.next[l.prev[head] := x][x := head], l.prev[x := l.prev[head]][head := x], l.up[x := Unsorted], l.down[x := Null])
  }

  lemma LastNeighbours(l: Links, head: nat, b: Bin)
    requires BinReady(l, head, b)
    ensures head < |l.next| && l.prev[head] == Loop(head, RingOf(b))[|RingOf(b)|] && l.prev[head] < |l.next|
    ensures l.prev[head] == head || In(b, l.prev[head])
  {
    RingNeighbours(l.next, l.prev, head, RingOf(b), |RingOf(b)|);
    SimpleRing(b, head);
    if RingOf(b) != [] { assert l.prev[head] in RingOf(b); }
  }

  lemma AppendedLinked(l: Links, head: nat, b: Bin, x: nat)
    requires BinReady(l, head, b) && x < |l.next| && x != head && !In(b, x)
    ensures head < |l.prev| && l.prev[head] < |l.next| && l.prev[head] != x
    ensures Linked(Appended(l, head, x), head, b.(unsorted := b.unsorted + [x]))
    ensures ChangesOnly(l, Appended(l, head, x), head, b, x)
  {
    LastNeighbours(l, head, b);
    SimpleRing(b, head);
    var ring, l', b' := RingOf(b), Appended(l, head, x), b.(unsorted := b.unsorted + [x]);
    RingInserted(l.next, l.prev, head, ring, |ring|, x);
    assert ring[..|ring|] + [x] + ring[|ring|..] == RingOf(b');
    forall j | 0 <= j < |b.sorted| ensures Column(l'.up, l'.down, b.sorted[j]) {
      ColumnFrame(l.up, l.down, l'.up, l'.down, b.sorted[j]);
    }
  }

  /** unlink_chunk, for a chunk in the middle of a column. */
  function Unstacked(l: Links, x: nat): Links
    requires l.Sized(|l.next|) && x < |l.up| && l.down[x].At? && l.down[x].chunk < |l.up|
    requires l.up[x].At? ==> l.up[x].chunk < |l.up|
  {
    l.(up := l.up[l.down[x].chunk := l.up[x]],
       down := if l.up[x].At? then l.down[l.up[x].chunk := l.down[x]] else l.down)
  }

  function WithoutAt(b: Bin, j: nat, k: nat): Bin
    requires j < |b.sorted| && k < |b.sorted[j]|
  {
    b.(sorted := b.sorted[j := b.sorted[j][..k] + b.sorted[j][k + 1..]])
  }

  lemma UnstackedLinked(l: Links, head: nat, b: Bin, j: nat, k: nat)
    requires BinReady(l, head, b) && j < |b.sorted| && 0 < k < |b.sorted[j]|
    ensures var x := b.sorted[j][k];
      && x < |l.up| && l.down[x].At? && l.down[x].chunk < |l.up| && (l.up[x].At? ==> l.up[x].chunk < |l.up|)
      && l.down[x].chunk == b.sorted[j][k - 1]
      && Linked(Unstacked(l, x), head, WithoutAt(b, j, k)) && ChangesOnly(l, Unstacked(l, x), head, b, x)
  {
    var c, x, b' := b.sorted[j], b.sorted[j][k], WithoutAt(b, j, k);
    SimpleColumn(b, j);
    ColumnRemoved(l.up, l.down, c, k);
    var l' := Unstacked(l, x);
    assert c[k - 1] in c && (l.up[x].At? ==> l.up[x].chunk in c);
    assert RingOf(b') == RingOf(b);
    forall i | 0 <= i < |b.sorted| && i != j ensures Column(l'.up, l'.down, b.sorted[i]) {
      forall y | y in b.sorted[i] ensures y !in c { SimpleColumns(b, i, j, y); }
      ColumnFrame(l.up, l.down, l'.up, l'.down, b.sorted[i]);
    }
    forall y | y in b.unsorted ensures IsUnsorted(l', y) { assert IsUnsorted(l, y) && y !in c; }
  }

  /** unlink_chunk, for a chunk of the `d` list with nothing above. */
  function Detached(l: Links, x: nat): Links
    requires l.Sized(|l.next|) && x < |l.next| && l.prev[x] < |l.next| && l.next[x] < |l.next|
  {
    l.(next := l.next[l.prev[x] := l.next[x]], prev := l.prev[l.next[x] := l.prev[x]])
  }

  lemma DetachedRing(l: Links, head: nat, b: Bin, k: nat)
    requires BinReady(l, head, b) && k < |RingOf(b)|
    ensures var x := RingOf(b)[k];
      && x < |l.next| && l.prev[x] < |l.next| && l.next[x] < |l.next|
      && Ring(Detached(l, x).next, Detached(l, x).prev, head, RingOf(b)[..k] + RingOf(b)[k + 1..])
      && ChangesOnly(l, Detached(l, x), head, b, x)
  {
    SimpleRing(b, head);
    var ring, x := RingOf(b), RingOf(b)[k];
    RingRemoved(l.next, l.prev, head, ring, k);
    assert l.prev[x] == head || l.prev[x] in ring by { if k > 0 { assert l.prev[x] == ring[k - 1]; } }
    assert l.next[x] == head || l.next[x] in ring by { if k + 1 < |ring| { assert l.next[x] == ring[k + 1]; } }
  }

  lemma DetachedColumn(l: Links, head: nat, b: Bin, j: nat)
    requires BinReady(l, head, b) && j < |b.sorted| && |b.sorted[j]| == 1
    ensures var x := b.sorted[j][0];
      && x < |l.next| && l.prev[x] < |l.next| && l.next[x] < |l.next| && l.up[x] == l.down[x] == Null
      && Linked(Detached(l, x), head, b.(sorted := b.sorted[..j] + b.sorted[j + 1..])) && ChangesOnly(l, Detached(l, x), head, b, x)
  {
    var b' := b.(sorted := b.sorted[..j] + b.sorted[j + 1..]);
    DetachedRing(l, head, b, j);
    assert Stacked(l.up, l.down, b.sorted[j], 0);
    assert RingOf(b') == RingOf(b)[..j] + RingOf(b)[j + 1..];
    forall i | 0 <= i < |b'.sorted| ensures |b'.sorted[i]| > 0 && Column(l.up, l.down, b'.sorted[i]) {
      assert b'.sorted[i] == b.sorted[if i < j then i else i + 1];
    }
    var l' := Detached(l, b.sorted[j][0]);
    forall y | y in b.unsorted ensures IsUnsorted(l', y) { assert IsUnsorted(l, y); }
  }

  lemma DetachedUnsorted(l: Links, head: nat, b: Bin, k: nat)
    requires BinReady(l, head, b) && k < |b.unsorted|
    ensures var x := b.unsorted[k];
      && x < |l.next| && l.prev[x] < |l.next| && l.next[x] < |l.next| && l.up[x] == Unsorted && l.down[x] == Null
      && Linked(Detached(l, x), head, b.(unsorted := b.unsorted[..k] + b.unsorted[k + 1..])) && ChangesOnly(l, Detached(l, x), head, b, x)
  {
    var b', n, x := b.(unsorted := b.unsorted[..k] + b.unsorted[k + 1..]), |b.sorted|, b.unsorted[k];
    DetachedRing(l, head, b, n + k);
    assert RingOf(b)[n + k] == x && IsUnsorted(l, x);
    assert RingOf(b') == RingOf(b)[..n + k] + RingOf(b)[n + k + 1..];
    var l' := Detached(l, x);
    forall y | y in b'.unsorted ensures IsUnsorted(l', y) { assert y in b.unsorted && IsUnsorted(l, y); }
  }

  /** unlink_chunk, for the bottom of a column: the chunk above comes in its place. */
  function Raised(l: Links, x: nat): Links
    requires l.Sized(|l.next|) && x < |l.next| && l.prev[x] < |l.next| && l.next[x] < |l.next|
    requires l.up[x].At? && l.up[x].chunk < |l.next|
  {
    var above := l.up[x].chunk;
    Links(l.next[l.prev[x] := above][above := l.next[x]], l.prev[l.next[x] := above][above := l.prev[x]],
          l.up, l.down[above := Null])
  }

  lemma RaisedRing(l: Links, head: nat, b: Bin, j: nat)
    requires BinReady(l, head, b) && j < |b.sorted| && |b.sorted[j]| > 1
    ensures var x := b.sorted[j][0];
      && x < |l.next| && l.prev[x] < |l.next| && l.next[x] < |l.next| && l.down[x] == Null
      && l.up[x] == At(b.sorted[j][1]) && b.sorted[j][1] < |l.next|
      && (l.prev[x] == head || In(b, l.prev[x])) && (l.next[x] == head || In(b, l.next[x]))
      && Ring(Raised(l, x).next, Raised(l, x).prev, head, RingOf(b)[j := b.sorted[j][1]])
  {
    var c, ring := b.sorted[j], RingOf(b);
    SimpleRing(b, head);
    SimpleColumn(b, j);
    ColumnLowered(l.up, l.down, c);
    assert c[1] in c && In(b, c[1]) && ring[j] == c[0];
    assert c[1] !in ring by {
      forall i | 0 <= i < |ring| ensures ring[i] != c[1] {
        if i < |b.sorted| && i != j { assert ring[i] in b.sorted[i]; SimpleColumns(b, j, i, c[1]); }
      }
    }
    RingReplaced(l.next, l.prev, head, ring, j, c[1]);
  }

  lemma RaisedLinked(l: Links, head: nat, b: Bin, j: nat)
    requires BinReady(l, head, b) && j < |b.sorted| && |b.sorted[j]| > 1
    ensures var x := b.sorted[j][0];
      && x < |l.next| && l.prev[x] < |l.next| && l.next[x] < |l.next| && l.down[x] == Null
      && l.up[x] == At(b.sorted[j][1]) && b.sorted[j][1] < |l.next|
      && Linked(Raised(l, x), head, WithoutAt(b, j, 0)) && ChangesOnly(l, Raised(l, x), head, b, x)
  {
    var c, x, b' := b.sorted[j], b.sorted[j][0], WithoutAt(b, j, 0);
    RaisedRing(l, head, b, j);
    SimpleColumn(b, j);
    ColumnLowered(l.up, l.down, c);
    var l' := Raised(l, x);
    assert c[..0] + c[1..] == c[1..];
    assert RingOf(b') == RingOf(b)[j := c[1]];
    assert c[1] in c && In(b, c[1]);
    forall i | 0 <= i < |b.sorted| && i != j ensures Column(l'.up, l'.down, b.sorted[i]) {
      forall y | y in b.sorted[i] ensures y !in c { SimpleColumns(b, i, j, y); }
      ColumnFrame(l.up, l.down, l'.up, l'.down, b.sorted[i]);
    }
    forall y | y in b.unsorted ensures IsUnsorted(l', y) { assert IsUnsorted(l, y) && y !in c; }
  }

  /** really_sort_bin starts by cutting off the unsorted tail, which begins after
      the chunk or head `last`. */
  function CutOff(l: Links, head: nat, last: nat): Links
    requires l.Sized(|l.next|) && head < |l.next| && last < |l.next|
  {
    l.(next := l.next[last := head], prev := l.prev[head := last])
  }

  lemma CutOffLinked(l: Links, head: nat, b: Bin)
    requires BinReady(l, head, b)
    ensures var last := Loop(head, RingOf(b))[|b.sorted|];
      && head < |l.next| && last < |l.next|
      && Linked(CutOff(l, head, last), head, b.(unsorted := [])) && ChangesOnly(l, CutOff(l, head, last), head, b, head)
  {
    SimpleRing(b, head);
    var ring, n := RingOf(b), |b.sorted|;
    RingCut(l.next, l.prev, head, ring, n);
    assert ring[..n] == RingOf(b.(unsorted := []));
    assert Loop(head, ring)[n] == head || Loop(head, ring)[n] in ring;
  }

  /** A new column in front of the one at `at`. */
  function Fronted(l: Links, at: nat, x: nat): Links
    requires l.Sized(|l.next|) && at < |l.next| && l.prev[at] < |l.next| && x < |l.next|
  {
    Links(l.next[l.prev[at] := x][x := at], l.prev[x := l.prev[at]][at := x], l.up[x := Null], l.down[x := Null])
  }

  lemma FrontsInserted(b: Bin, i: nat, x: nat)
    requires b.unsorted == [] && i <= |b.sorted| && forall k :: 0 <= k < |b.sorted| ==> |b.sorted[k]| > 0
    ensures RingOf(b)[..i] + [x] + RingOf(b)[i..] == RingOf(b.(sorted := InsertedColumn(b.sorted, i, x)))
  {
  }

  lemma FrontedRing(l: Links, head: nat, b: Bin, i: nat, x: nat)
    requires BinReady(l, head, b) && b.unsorted == [] && i <= |b.sorted| && x < |l.next| && x != head && !In(b, x)
    ensures var at := Loop(head, RingOf(b))[i + 1];
      && at < |l.next| && l.prev[at] < |l.next| && x != at && x != l.prev[at]
      && Ring(Fronted(l, at, x).next, Fronted(l, at, x).prev, head, RingOf(b.(sorted := InsertedColumn(b.sorted, i, x))))
      && ChangesOnly(l, Fronted(l, at, x), head, b, x)
  {
    SimpleRing(b, head);
    var ring := RingOf(b);
    RingNeighbours(l.next, l.prev, head, ring, i);
    var at, b' := Loop(head, RingOf(b))[i + 1], b.(sorted := InsertedColumn(b.sorted, i, x));
    RingInserted(l.next, l.prev, head, ring, i, x);
    FrontsInserted(b, i, x);
    assert (at == head || at in ring) && (l.prev[at] == head || l.prev[at] in ring);
  }

  lemma FrontedLinked(l: Links, head: nat, b: Bin, i: nat, x: nat)
    requires BinReady(l, head, b) && b.unsorted == [] && i <= |b.sorted| && x < |l.next| && x != head && !In(b, x)
    ensures var at := Loop(head, RingOf(b))[i + 1];
      && at < |l.next| && l.prev[at] < |l.next| && x != at && x != l.prev[at]
      && Linked(Fronted(l, at, x), head, b.(sorted := InsertedColumn(b.sorted, i, x))) && ChangesOnly(l, Fronted(l, at, x), head, b, x)
  {
    hide Ring, Loop, RingOf;
    FrontedRing(l, head, b, i, x);
    var at, b' := Loop(head, RingOf(b))[i + 1], b.(sorted := InsertedColumn(b.sorted, i, x));
    var l' := Fronted(l, at, x);
    forall j | 0 <= j < |b'.sorted| ensures |b'.sorted[j]| > 0 && Column(l'.up, l'.down, b'.sorted[j]) {
      if j == i { assert Stacked(l'.up, l'.down, [x], 0); } else {
        assert b'.sorted[j] == b.sorted[if j < i then j else j - 1];
        ColumnFrame(l.up, l.down, l'.up, l'.down, b'.sorted[j]);
      }
    }
  }

  /** A chunk of the same size just above the bottom `at` of a column. */
  function PutAbove(l: Links, at: nat, x: nat): Links
    requires l.Sized(|l.next|) && at < |l.next| && x < |l.next| && (l.up[at].At? ==> l.up[at].chunk < |l.next|)
  {
    l.(up := l.up[x := l.up[at]][at := At(x)],
       down := if l.up[at].At? then l.down[x := At(at)][l.up[at].chunk := At(x)] else l.down[x := At(at)])
  }

  lemma PutAboveLinked(l: Links, head: nat, b: Bin, i: nat, x: nat)
    requires BinReady(l, head, b) && b.unsorted == [] && i < |b.sorted| && x < |l.next| && x != head && !In(b, x)
    ensures var at := Loop(head, RingOf(b))[i + 1];
      && at < |l.next| && at == Bottom(b.sorted[i]) && (l.up[at].At? ==> l.up[at].chunk < |l.next|) && |b.sorted[i]| > 0
      && Linked(PutAbove(l, at, x), head, b.(sorted := PushedColumn(b.sorted, i, x))) && ChangesOnly(l, PutAbove(l, at, x), head, b, x)
  {
    var c, b' := b.sorted[i], b.(sorted := PushedColumn(b.sorted, i, x));
    SimpleColumn(b, i);
    ColumnPushed(l.up, l.down, c, x);
    var l' := PutAbove(l, c[0], x);
    assert Stacked(l.up, l.down, c, 0);
    assert c[0] in c && (|c| > 1 ==> c[1] in c);
    assert RingOf(b') == RingOf(b) && Loop(head, RingOf(b))[i + 1] == c[0];
    forall j | 0 <= j < |b.sorted| && j != i ensures Column(l'.up, l'.down, b.sorted[j]) {
      forall y | y in b.sorted[j] ensures y !in c { SimpleColumns(b, j, i, y); }
      ColumnFrame(l.up, l.down, l'.up, l'.down, b.sorted[j]);
    }
  }

  // ----- positions in a bin

  lemma {:induction false} WithoutAbsent(s: seq<nat>, x: nat)
    requires x !in s
    ensures Without(s, x) == s
  {
    if s != [] { WithoutAbsent(s[1..], x); }
  }

  lemma {:induction false} WithoutOne(s: seq<nat>, k: nat)
    requires k < |s| && NoRepeat(s)
    ensures Without(s, s[k]) == s[..k] + s[k + 1..]
  {
    if k == 0 {
      WithoutAbsent(s[1..], s[0]);
    } else {
      WithoutOne(s[1..], k - 1);
      assert [s[0]] + (s[1..][..k - 1] + s[1..][k..]) == s[..k] + s[k + 1..];
    }
  }

  lemma {:induction false} WithoutColumnsAbsent(columns: seq<seq<nat>>, x: nat)
    requires forall j :: 0 <= j < |columns| ==> columns[j] != [] && x !in columns[j]
    ensures WithoutColumns(columns, x) == columns
  {
    if columns != [] {
      WithoutAbsent(columns[0], x);
      WithoutColumnsAbsent(columns[1..], x);
    }
  }

  lemma {:induction false} WithoutColumnsAppend(a: seq<seq<nat>>, b: seq<seq<nat>>, x: nat)
    ensures WithoutColumns(a + b, x) == WithoutColumns(a, x) + WithoutColumns(b, x)
  {
    hide Without;
    if a == [] {
      assert a + b == b;
    } else {
      WithoutColumnsAppend(a[1..], b, x);
      assert (a + b)[1..] == a[1..] + b && (a + b)[0] == a[0];
    }
  }

  lemma WithoutColumnsOne(c: seq<nat>, x: nat)
    ensures WithoutColumns([c], x) == if Without(c, x) == [] then [] else [Without(c, x)]
  {
    assert [c][1..] == [];
  }

  lemma WithoutColumnsSplit(columns: seq<seq<nat>>, j: nat, x: nat)
    requires j < |columns|
    requires forall i :: 0 <= i < |columns| ==> columns[i] != [] && (i != j ==> x !in columns[i])
    ensures var c := Without(columns[j], x);
      WithoutColumns(columns, x) == columns[..j] + (if c == [] then [] else [c]) + columns[j + 1..]
  {
    hide WithoutColumns, Without;
    var a, one, b := columns[..j], [columns[j]], columns[j + 1..];
    assert columns == a + one + b;
    WithoutColumnsOne(columns[j], x);
    WithoutColumnsAppend(a + one, b, x);
    WithoutColumnsAppend(a, one, x);
    WithoutColumnsAbsent(a, x);
    WithoutColumnsAbsent(b, x);
  }

  lemma WithoutColumnsAt(columns: seq<seq<nat>>, j: nat, k: nat)
    requires j < |columns| && k < |columns[j]| && NoRepeat(columns[j])
    requires forall i :: 0 <= i < |columns| ==> columns[i] != [] && (i != j ==> columns[j][k] !in columns[i])
    ensures WithoutColumns(columns, columns[j][k]) ==
      if |columns[j]| == 1 then columns[..j] + columns[j + 1..] else columns[j := columns[j][..k] + columns[j][k + 1..]]
  {
    hide WithoutColumns, Without;
    WithoutOne(columns[j], k);
    WithoutColumnsSplit(columns, j, columns[j][k]);
  }

  ghost predicate NoEmptyColumn(b: Bin) { forall j :: 0 <= j < |b.sorted| ==> b.sorted[j] != [] }

  lemma UnlinkedColumn(b: Bin, j: nat, k: nat)
    requires Simple(b) && NoEmptyColumn(b) && j < |b.sorted| && k < |b.sorted[j]|
    ensures Unlinked(b, b.sorted[j][k]) ==
      if |b.sorted[j]| == 1 then b.(sorted := b.sorted[..j] + b.sorted[j + 1..]) else WithoutAt(b, j, k)
  {
    var x := b.sorted[j][k];
    SimpleColumn(b, j);
    forall i | 0 <= i < |b.sorted| && i != j ensures x !in b.sorted[i] { SimpleColumns(b, j, i, x); }
    WithoutColumnsAt(b.sorted, j, k);
    WithoutAbsent(b.unsorted, x);
  }

  lemma UnlinkedUnsorted(b: Bin, k: nat)
    requires Simple(b) && NoEmptyColumn(b) && k < |b.unsorted|
    ensures Unlinked(b, b.unsorted[k]) == b.(unsorted := b.unsorted[..k] + b.unsorted[k + 1..])
  {
    var x := b.unsorted[k];
    forall j | 0 <= j < |b.sorted| ensures x !in b.sorted[j] { SimpleColumn(b, j); }
    WithoutColumnsAbsent(b.sorted, x);
    forall y: nat ensures multiset(b.unsorted)[y] <= 1 { assert Members(b)[y] >= multiset(b.unsorted)[y]; }
    AtMostOnce(b.unsorted);
    WithoutOne(b.unsorted, k);
  }

  // ----- all bins

  /** Every chunk is in one bin at most. */
  ghost predicate Apart(bins: seq<Bin>, memory: nat) {
    && (forall i :: 0 <= i < |bins| ==> Simple(bins[i]))
    && (forall i, x: nat {:trigger In(bins[i], x)} :: 0 <= i < |bins| && In(bins[i], x) ==> x < memory)
    && (forall i, j, x: nat {:trigger In(bins[i], x), In(bins[j], x)} :: 0 <= i < j < |bins| && In(bins[i], x) ==> !In(bins[j], x))
  }

  ghost predicate Nowhere(bins: seq<Bin>, x: nat) { forall i :: 0 <= i < |bins| ==> !In(bins[i], x) }

  lemma ApartLess(bins: seq<Bin>, memory: nat, i: nat, b: Bin)
    requires Apart(bins, memory) && i < |bins| && forall x: nat {:trigger Members(b)[x]} :: Members(b)[x] <= Members(bins[i])[x]
    ensures Apart(bins[i := b], memory) && forall x: nat :: In(b, x) ==> In(bins[i], x)
  {
    forall x: nat | In(b, x) ensures In(bins[i], x) {
      InMembers(b, x);
      InMembers(bins[i], x);
      assert Members(b)[x] <= Members(bins[i])[x];
    }
    forall x: nat ensures Members(b)[x] <= 1 { assert Members(bins[i])[x] <= 1; }
  }

  lemma ApartMore(bins: seq<Bin>, memory: nat, i: nat, b: Bin, x: nat)
    requires Apart(bins, memory) && i < |bins| && Members(b) == Members(bins[i]) + multiset{x} && x < memory && Nowhere(bins, x)
    ensures Apart(bins[i := b], memory) && forall y: nat :: In(b, y) <==> In(bins[i], y) || y == x
  {
    InMembers(bins[i], x);
    forall y: nat ensures In(b, y) <==> In(bins[i], y) || y == x {
      InMembers(b, y);
      InMembers(bins[i], y);
    }
    forall y: nat ensures Members(b)[y] <= 1 { assert Members(bins[i])[y] <= 1; }
  }

  ghost predicate AllLinked(l: Links, bins: seq<Bin>, memory: nat) {
    |bins| == N_BINS && l.Sized(memory + N_BINS) && forall i :: 0 <= i < N_BINS ==> Linked(l, memory + i, bins[i])
  }

  lemma Ready(l: Links, bins: seq<Bin>, memory: nat, i: nat)
    requires AllLinked(l, bins, memory) && Apart(bins, memory) && i < N_BINS
    ensures BinReady(l, memory + i, bins[i]) && NoEmptyColumn(bins[i])
  {
    assert Linked(l, memory + i, bins[i]);
    assert !In(bins[i], memory + i);
  }

  /** Changing one bin leaves the links of the others right. */
  lemma OthersLinked(l: Links, l': Links, bins: seq<Bin>, memory: nat, i: nat, b: Bin, x: nat)
    requires AllLinked(l, bins, memory) && Apart(bins, memory) && i < N_BINS && Linked(l', memory + i, b)
    requires ChangesOnly(l, l', memory + i, bins[i], x) && (x == memory + i || (x < memory && Nowhere(bins[i := Bin([], [])], x)))
    ensures AllLinked(l', bins[i := b], memory)
  {
    forall j | 0 <= j < N_BINS && j != i ensures Linked(l', memory + j, bins[j]) {
      assert Linked(l, memory + j, bins[j]);
      if x != memory + i { assert !In(bins[i := Bin([], [])][j], x); }
      LinkedFrame(l, l', memory + j, bins[j]);
    }
  }

  lemma NowhereElse(bins: seq<Bin>, memory: nat, i: nat, x: nat)
    requires Apart(bins, memory) && i < |bins| && (In(bins[i], x) || Nowhere(bins, x))
    ensures Nowhere(bins[i := Bin([], [])], x)
  {
    assert !In(Bin([], []), x);
  }

  lemma FrontedAll(l: Links, bins: seq<Bin>, memory: nat, i: nat, pos: nat, at: nat, x: nat)
    requires AllLinked(l, bins, memory) && Apart(bins, memory) && i < |bins| && bins[i].unsorted == [] && pos <= |bins[i].sorted|
    requires at == Loop(memory + i, RingOf(bins[i]))[pos + 1] && x < memory && Nowhere(bins, x)
    ensures l.Sized(|l.next|) && at < |l.next| && l.prev[at] < |l.next| && x < |l.next| && x != at && x != l.prev[at]
    ensures var bins' := bins[i := Bin(InsertedColumn(bins[i].sorted, pos, x), [])];
      AllLinked(Fronted(l, at, x), bins', memory) && Apart(bins', memory)
  {
    var head, b := memory + i, bins[i];
    var b' := Bin(InsertedColumn(b.sorted, pos, x), []);
    Ready(l, bins, memory, i);
    FrontedLinked(l, head, b, pos, x);
    InsertedFlat(b.sorted, pos, x);
    NowhereElse(bins, memory, i, x);
    ApartMore(bins, memory, i, b', x);
    OthersLinked(l, Fronted(l, at, x), bins, memory, i, b', x);
  }

  lemma PutAboveAll(l: Links, bins: seq<Bin>, memory: nat, i: nat, pos: nat, at: nat, x: nat)
    requires AllLinked(l, bins, memory) && Apart(bins, memory) && i < |bins| && bins[i].unsorted == [] && pos < |bins[i].sorted|
    requires at == Loop(memory + i, RingOf(bins[i]))[pos + 1] && x < memory && Nowhere(bins, x)
    ensures l.Sized(|l.next|) && at < |l.next| && (l.up[at].At? ==> l.up[at].chunk < |l.next|) && x < |l.next| && x != at && |bins[i].sorted[pos]| > 0
    ensures var bins' := bins[i := Bin(PushedColumn(bins[i].sorted, pos, x), [])];
      AllLinked(PutAbove(l, at, x), bins', memory) && Apart(bins', memory)
  {
    var head, b := memory + i, bins[i];
    Ready(l, bins, memory, i);
    PutAboveLinked(l, head, b, pos, x);
    var b' := Bin(PushedColumn(b.sorted, pos, x), []);
    assert b.sorted[pos][0] in b.sorted[pos] && In(b, b.sorted[pos][0]);
    PushedFlat(b.sorted, pos, x);
    NowhereElse(bins, memory, i, x);
    ApartMore(bins, memory, i, b', x);
    OthersLinked(l, PutAbove(l, at, x), bins, memory, i, b', x);
  }

  /** After unlinking x from bin i. */
  lemma UnlinkedAll(l: Links, l': Links, bins: seq<Bin>, memory: nat, i: nat, x: nat)
    requires AllLinked(l, bins, memory) && Apart(bins, memory) && i < N_BINS && In(bins[i], x)
    requires Linked(l', memory + i, Unlinked(bins[i], x)) && ChangesOnly(l, l', memory + i, bins[i], x)
    ensures var bins' := bins[i := Unlinked(bins[i], x)];
      AllLinked(l', bins', memory) && Apart(bins', memory) && Nowhere(bins', x)
  {
    RemovedLeaves(bins[i], x);
    NowhereElse(bins, memory, i, x);
    ApartLess(bins, memory, i, Unlinked(bins[i], x));
    OthersLinked(l, l', bins, memory, i, Unlinked(bins[i], x), x);
    forall j | 0 <= j < N_BINS && j != i ensures !In(bins[j], x) { assert !In(bins[i := Bin([], [])][j], x); }
  }

  /** After cutting the unsorted tail of bin i off. */
  lemma CutAll(l: Links, bins: seq<Bin>, memory: nat, i: nat)
    requires AllLinked(l, bins, memory) && Apart(bins, memory) && i < |bins|
    ensures var head, last, bins' := memory + i, Loop(memory + i, RingOf(bins[i]))[|bins[i].sorted|], bins[i := bins[i].(unsorted := [])];
      && l.Sized(|l.next|) && head < |l.next| && last < |l.next|
      && AllLinked(CutOff(l, head, last), bins', memory) && Apart(bins', memory)
  {
    Ready(l, bins, memory, i);
    var head, b := memory + i, bins[i];
    CutOffLinked(l, head, b);
    ApartLess(bins, memory, i, b.(unsorted := []));
    OthersLinked(l, CutOff(l, head, Loop(head, RingOf(b))[|b.sorted|]), bins, memory, i, b.(unsorted := []), head);
  }

  /** One step backwards. */
  lemma Back(l: Links, head: nat, b: Bin, k: nat)
    requires BinReady(l, head, b) && k <= |RingOf(b)|
    ensures var all := Loop(head, RingOf(b));
      head < |l.prev| && all[k + 1] < |l.prev| && l.prev[all[k + 1]] == all[k] && all[k] < |l.prev| && all[|RingOf(b)| + 1] == head
  {
    RingNeighbours(l.next, l.prev, head, RingOf(b), k);
    RingNeighbours(l.next, l.prev, head, RingOf(b), 0);
  }

  /** The links of the bottom of a column, and what taking the chunk above does. */
  lemma GrabbedAll(l: Links, bins: seq<Bin>, memory: nat, i: nat, k: nat)
    requires AllLinked(l, bins, memory) && Apart(bins, memory) && i < |bins| && k < |bins[i].sorted|
    ensures |bins[i].sorted[k]| > 0 && l.Sized(|l.next|)
    ensures var c := bins[i].sorted[k];
      c[0] < |l.up| && In(bins[i], c[0]) && l.up[c[0]] == if |c| == 1 then Null else At(c[1])
    ensures |bins[i].sorted[k]| > 1 ==>
      var c := bins[i].sorted[k];
      var x, b := c[1], Unlinked(bins[i], c[1]);
      && x < |l.up| && l.down[x] == At(c[0]) && (l.up[x].At? ==> l.up[x].chunk < |l.up|)
      && AllLinked(Unstacked(l, x), bins[i := b], memory) && Apart(bins[i := b], memory) && Nowhere(bins[i := b], x)
  {
    Ready(l, bins, memory, i);
    var c, b := bins[i].sorted[k], bins[i];
    assert c[0] in c && Stacked(l.up, l.down, c, 0);
    if |c| > 1 {
      var x := c[1];
      assert x in c && In(b, x);
      UnstackedLinked(l, memory + i, b, k, 1);
      UnlinkedColumn(b, k, 1);
      RemovedLeaves(b, x);
      NowhereElse(bins, memory, i, x);
      ApartLess(bins, memory, i, Unlinked(b, x));
      OthersLinked(l, Unstacked(l, x), bins, memory, i, Unlinked(b, x), x);
    }
  }

  lemma RemovedLeaves(b: Bin, x: nat)
    ensures !In(Unlinked(b, x), x) && forall y: nat {:trigger Members(Unlinked(b, x))[y]} :: Members(Unlinked(b, x))[y] <= Members(b)[y]
  {
    UnlinkedMembers(b, x);
    InMembers(Unlinked(b, x), x);
  }

  /** Where x is in the bin: in column j at height k, or at place k of the tail. */
  lemma Place(b: Bin, x: nat) returns (inColumn: bool, j: nat, k: nat)
    requires In(b, x)
    ensures if inColumn then j < |b.sorted| && k < |b.sorted[j]| && b.sorted[j][k] == x else k < |b.unsorted| && b.unsorted[k] == x
  {
    if x in b.unsorted {
      inColumn, j := false, 0;
      k :| 0 <= k < |b.unsorted| && b.unsorted[k] == x;
    } else {
      inColumn := true;
      j :| 0 <= j < |b.sorted| && x in b.sorted[j];
      k :| 0 <= k < |b.sorted[j]| && b.sorted[j][k] == x;
    }
  }

  lemma EmptyLinked(l: Links, head: nat)
    requires head < |l.next| == |l.prev| && l.next[head] == l.prev[head] == head
    ensures Linked(l, head, Bin([], []))
  {
    assert Joined(l.next, l.prev, Loop(head, RingOf(Bin([], []))), 0);
  }

  lemma AllEmpty(memory: nat)
    ensures Apart(seq(N_BINS, _ => Bin([], [])), memory)
  {
    assert Members(Bin([], [])) == multiset{};
  }
}
