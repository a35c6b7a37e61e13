/** The bins of largemalloc.c.  A bin is a list of columns followed by an
    unsorted tail; a column holds free chunks of one size, the bottom one first.
    The `d` list of the C code runs through the bottoms and the tail, the `u`
    lists through the columns.  A chunk is named by its address; its size is
    looked up in `size`. */
module Bins {
  const N_BINS: nat := 84

  datatype Bin = Bin(sorted: seq<seq<nat>>, unsorted: seq<nat>)

  /** largebin_index */
  function LargeBinIndex(sz: nat): (i: nat)
    ensures i < N_BINS
  {
    if sz < 3072 then sz / 64
    else if sz < 12288 then 42 + sz / 512
    else if sz < 49152 then 63 + sz / 4096
    else if sz < 196608 then 74 + sz / 32768
    else if sz < 786432 then 80 + sz / 262144
    else 83
  }

  lemma IndexMonotone(a: nat, b: nat)
    ensures a <= b ==> LargeBinIndex(a) <= LargeBinIndex(b)
    ensures LargeBinIndex(a) < LargeBinIndex(b) ==> a < b
  {
  }

  function Flat(columns: seq<seq<nat>>): seq<nat> {
    if columns == [] then [] else columns[0] + Flat(columns[1..])
  }

  /** All chunks of a bin, with how often they occur. */
  function Members(b: Bin): multiset<nat> {
    multiset(Flat(b.sorted)) + multiset(b.unsorted)
  }

  ghost predicate UniformColumn(c: seq<nat>, size: seq<nat>) {
    |c| > 0 && c[0] < |size| && forall x :: x in c ==> x < |size| && size[x] == size[c[0]]
  }

  ghost predicate ColumnsOk(columns: seq<seq<nat>>, size: seq<nat>) {
    && (forall i :: 0 <= i < |columns| ==> UniformColumn(columns[i], size))
    && (forall i, j :: 0 <= i < j < |columns| ==> size[columns[i][0]] > size[columns[j][0]])
  }

  ghost predicate BinSorted(b: Bin, size: seq<nat>) {
    ColumnsOk(b.sorted, size) && forall x :: x in b.unsorted ==> x < |size|
  }

  lemma {:induction false} FlatAppend(a: seq<seq<nat>>, b: seq<seq<nat>>)
    ensures Flat(a + b) == Flat(a) + Flat(b)
  {
    if a == [] {
      assert a + b == b;
    } else {
      FlatAppend(a[1..], b);
      assert (a + b)[1..] == a[1..] + b && (a + b)[0] == a[0];
    }
  }

  lemma FlatOne(c: seq<nat>)
    ensures Flat([c]) == c
  {
    var one, none: seq<seq<nat>> := [c], [];
    assert one[1..] == none && c + Flat(none) == c;
  }

  lemma SplitAt(columns: seq<seq<nat>>, i: nat)
    requires i < |columns|
    ensures columns == (columns[..i] + [columns[i]]) + columns[i + 1..]
  {
  }

  lemma FlatAround(columns: seq<seq<nat>>, i: nat)
    requires i < |columns|
    ensures Flat(columns) == Flat(columns[..i]) + columns[i] + Flat(columns[i + 1..])
  {
    hide Flat;
    SplitAt(columns, i);
    FlatAppend(columns[..i] + [columns[i]], columns[i + 1..]);
    FlatAppend(columns[..i], [columns[i]]);
    FlatOne(columns[i]);
  }

  // ----- sorting

  ghost predicate Ascending(s: seq<nat>, size: seq<nat>) {
    (forall i :: 0 <= i < |s| ==> s[i] < |size|) && forall i, j :: 0 <= i <= j < |s| ==> size[s[i]] <= size[s[j]]
  }

  /** qsort with compare_chunks; any order of equal sizes will do. */
  method SortChunks(chunks: seq<nat>, size: array<nat>) returns (r: seq<nat>)
    requires forall x :: x in chunks ==> x < size.Length
    ensures Ascending(r, size[..]) && multiset(r) == multiset(chunks)
  {
    r := [];
    var i := 0;
    while i < |chunks|
      invariant i <= |chunks| && Ascending(r, size[..]) && multiset(r) == multiset(chunks[..i])
    {
      assert chunks[i] in chunks && chunks[..i + 1] == chunks[..i] + [chunks[i]];
      r := InsertChunk(r, chunks[i], size);
      i := i + 1;
    }
    assert chunks[..i] == chunks;
  }

  method InsertChunk(s: seq<nat>, x: nat, size: array<nat>) returns (r: seq<nat>)
    requires Ascending(s, size[..]) && x < size.Length
    ensures Ascending(r, size[..]) && multiset(r) == multiset(s) + multiset{x}
  {
    var k := 0;
    while k < |s| && size[s[k]] < size[x]
      invariant k <= |s| && forall i :: 0 <= i < k ==> size[s[i]] < size[x]
    {
      k := k + 1;
    }
    InsertedAscends(s, k, x, size[..]);
    r := s[..k] + [x] + s[k..];
    assert s == s[..k] + s[k..];
  }

  lemma InsertedAscends(s: seq<nat>, k: nat, x: nat, size: seq<nat>)
    requires Ascending(s, size) && k <= |s| && x < |size|
    requires forall i :: 0 <= i < k ==> size[s[i]] < size[x]
    requires k < |s| ==> size[s[k]] >= size[x]
    ensures Ascending(s[..k] + [x] + s[k..], size)
  {
    var r := s[..k] + [x] + s[k..];
    forall i | 0 <= i < |r| ensures r[i] == if i < k then s[i] else if i == k then x else s[i - 1] {}
    forall i, j | 0 <= i <= j < |r| ensures size[r[i]] <= size[r[j]] {
      if i == k && j > k { assert size[s[k]] <= size[s[j - 1]]; }
    }
  }

  /** Chunk x as a column of its own before column `head`. */
  function InsertedColumn(columns: seq<seq<nat>>, head: nat, x: nat): seq<seq<nat>>
    requires head <= |columns|
  {
    columns[..head] + [[x]] + columns[head..]
  }

  /** Chunk x just above the bottom of column `head`. */
  function PushedColumn(columns: seq<seq<nat>>, head: nat, x: nat): seq<seq<nat>>
    requires head < |columns| && |columns[head]| > 0
  {
    columns[head := [columns[head][0], x] + columns[head][1..]]
  }

  lemma InsertedOk(columns: seq<seq<nat>>, head: nat, x: nat, size: seq<nat>)
    requires ColumnsOk(columns, size) && head <= |columns| && x < |size|
    requires head < |columns| ==> size[columns[head][0]] < size[x]
    requires head > 0 ==> size[columns[head - 1][0]] > size[x]
    ensures ColumnsOk(InsertedColumn(columns, head, x), size)
  {
    var r := columns[..head] + [[x]] + columns[head..];
    forall i | 0 <= i < |r| ensures UniformColumn(r[i], size) {
      if i < head { assert UniformColumn(columns[i], size); }
      if i > head { assert UniformColumn(columns[i - 1], size); }
    }
    forall i, j | 0 <= i < j < |r| ensures size[r[i][0]] > size[r[j][0]] {
      if j == head && i < head - 1 { assert size[columns[i][0]] > size[columns[head - 1][0]]; }
    }
  }

  lemma InsertedFlat(columns: seq<seq<nat>>, head: nat, x: nat)
    requires head <= |columns|
    ensures multiset(Flat(InsertedColumn(columns, head, x))) == multiset(Flat(columns)) + multiset{x}
  {
    var a, b, one := columns[..head], columns[head..], [[x]];
    assert columns == a + b;
    FlatOne([x]);
    FlatAppend(a, b);
    FlatAppend(a + one, b);
    FlatAppend(a, one);
  }

  lemma PushedUniform(c: seq<nat>, x: nat, size: seq<nat>)
    requires UniformColumn(c, size) && x < |size| && size[c[0]] == size[x]
    ensures UniformColumn([c[0], x] + c[1..], size)
  {
    forall y | y in [c[0], x] + c[1..] ensures y < |size| && size[y] == size[c[0]] {
      if y != x { assert y in c; }
    }
  }

  lemma PushedOk(columns: seq<seq<nat>>, head: nat, x: nat, size: seq<nat>)
    requires ColumnsOk(columns, size) && head < |columns| && x < |size|
    requires |columns[head]| > 0 && columns[head][0] < |size| && size[columns[head][0]] == size[x]
    ensures ColumnsOk(PushedColumn(columns, head, x), size)
  {
    assert UniformColumn(columns[head], size);
    PushedUniform(columns[head], x, size);
  }

  lemma PushedFlat(columns: seq<seq<nat>>, head: nat, x: nat)
    requires head < |columns| && |columns[head]| > 0
    ensures multiset(Flat(PushedColumn(columns, head, x))) == multiset(Flat(columns)) + multiset{x}
  {
    hide Flat;
    var c := columns[head];
    var d := [c[0], x] + c[1..];
    var r := columns[head := d];
    ReplacedFlat(columns, head, d);
    SecondAdded(c, x);
    Cancel(multiset(Flat(r)), multiset(Flat(columns)), multiset(c), multiset(d), x);
  }

  lemma SecondAdded(c: seq<nat>, x: nat)
    requires |c| > 0
    ensures multiset([c[0], x] + c[1..]) == multiset(c) + multiset{x}
  {
    assert c == [c[0]] + c[1..] && [c[0], x] + c[1..] == [c[0]] + [x] + c[1..];
  }

  lemma Cancel(a: multiset<nat>, b: multiset<nat>, c: multiset<nat>, d: multiset<nat>, x: nat)
    requires a + c == b + d && d == c + multiset{x}
    ensures a == b + multiset{x}
  {
    forall y: nat ensures a[y] == (b + multiset{x})[y] { assert (a + c)[y] == (b + d)[y]; }
  }

  lemma ReplacedFlat(columns: seq<seq<nat>>, i: nat, d: seq<nat>)
    requires i < |columns|
    ensures multiset(Flat(columns[i := d])) + multiset(columns[i]) == multiset(Flat(columns)) + multiset(d)
  {
    FlatAround(columns[i := d], i);
    FlatAround(columns, i);
    assert columns[i := d][..i] == columns[..i] && columns[i := d][i + 1..] == columns[i + 1..];
  }

  /** insert_unsorted */
  function InsertUnsorted(bins: seq<Bin>, i: nat, x: nat): seq<Bin>
    requires i < |bins|
  {
    bins[i := bins[i].(unsorted := bins[i].unsorted + [x])]
  }

  // ----- taking a chunk out

  function Without(s: seq<nat>, x: nat): seq<nat> {
    if s == [] then [] else (if s[0] == x then [] else [s[0]]) + Without(s[1..], x)
  }

  function WithoutColumns(columns: seq<seq<nat>>, x: nat): seq<seq<nat>> {
    if columns == [] then [] else
      var c := Without(columns[0], x);
      (if c == [] then [] else [c]) + WithoutColumns(columns[1..], x)
  }

  /** unlink_chunk: a column that loses its bottom goes on with the chunk above,
      and disappears when there is none. */
  function Unlinked(b: Bin, x: nat): Bin {
    Bin(WithoutColumns(b.sorted, x), Without(b.unsorted, x))
  }

  lemma {:induction false} WithoutMembers(s: seq<nat>, x: nat)
    ensures multiset(Without(s, x)) == multiset(s)[x := 0]
  {
    if s != [] {
      WithoutMembers(s[1..], x);
      assert s == [s[0]] + s[1..];
      assert multiset(s) == multiset{s[0]} + multiset(s[1..]);
    }
  }

  lemma {:induction false} WithoutColumnsMembers(columns: seq<seq<nat>>, x: nat)
    ensures multiset(Flat(WithoutColumns(columns, x))) == multiset(Flat(columns))[x := 0]
  {
    if columns != [] {
      var c, rest := Without(columns[0], x), WithoutColumns(columns[1..], x);
      WithoutMembers(columns[0], x);
      WithoutColumnsMembers(columns[1..], x);
      FlatWithFirst(c, rest);
      BothWithout(multiset(columns[0]), multiset(Flat(columns[1..])), x);
      assert WithoutColumns(columns, x) == (if c == [] then [] else [c]) + rest;
    }
  }

  lemma FlatWithFirst(c: seq<nat>, rest: seq<seq<nat>>)
    ensures multiset(Flat((if c == [] then [] else [c]) + rest)) == multiset(c) + multiset(Flat(rest))
  {
    hide Flat;
    if c == [] {
      assert [] + rest == rest;
    } else {
      FlatAppend([c], rest);
      FlatOne(c);
    }
  }

  lemma BothWithout(a: multiset<nat>, b: multiset<nat>, x: nat)
    ensures (a + b)[x := 0] == a[x := 0] + b[x := 0]
  {
  }

  lemma UnlinkedMembers(b: Bin, x: nat)
    ensures Members(Unlinked(b, x)) == Members(b)[x := 0]
  {
    WithoutMembers(b.unsorted, x);
    WithoutColumnsMembers(b.sorted, x);
  }

  lemma {:induction false} WithoutSubset(s: seq<nat>, x: nat)
    ensures forall y :: y in Without(s, x) ==> y in s
  {
    if s != [] { WithoutSubset(s[1..], x); }
  }

  ghost predicate Below(columns: seq<seq<nat>>, bound: nat, size: seq<nat>)
    requires ColumnsOk(columns, size)
  {
    forall i :: 0 <= i < |columns| ==> size[columns[i][0]] < bound
  }

  lemma PrependedOk(c: seq<nat>, rest: seq<seq<nat>>, size: seq<nat>)
    requires UniformColumn(c, size) && ColumnsOk(rest, size) && Below(rest, size[c[0]], size)
    ensures ColumnsOk([c] + rest, size)
  {
  }

  lemma TailOk(columns: seq<seq<nat>>, size: seq<nat>)
    requires ColumnsOk(columns, size) && columns != []
    ensures ColumnsOk(columns[1..], size) && Below(columns[1..], size[columns[0][0]], size)
  {
  }

  lemma StillUniform(c: seq<nat>, x: nat, size: seq<nat>)
    requires UniformColumn(c, size) && Without(c, x) != []
    ensures UniformColumn(Without(c, x), size) && size[Without(c, x)[0]] == size[c[0]]
  {
    WithoutSubset(c, x);
    assert Without(c, x)[0] in Without(c, x);
  }

  lemma {:induction false} WithoutColumnsOk(columns: seq<seq<nat>>, x: nat, size: seq<nat>, bound: nat)
    requires ColumnsOk(columns, size) && Below(columns, bound, size)
    ensures ColumnsOk(WithoutColumns(columns, x), size) && Below(WithoutColumns(columns, x), bound, size)
  {
    if columns != [] {
      assert UniformColumn(columns[0], size);
      TailOk(columns, size);
      var c, rest := Without(columns[0], x), WithoutColumns(columns[1..], x);
      WithoutColumnsOk(columns[1..], x, size, size[columns[0][0]]);
      if c == [] {
        assert WithoutColumns(columns, x) == rest;
      } else {
        StillUniform(columns[0], x, size);
        PrependedOk(c, rest, size);
      }
    }
  }

  lemma UnlinkedSorted(b: Bin, x: nat, size: seq<nat>)
    requires BinSorted(b, size)
    ensures BinSorted(Unlinked(b, x), size)
  {
    var bound := if b.sorted == [] then 0 else size[b.sorted[0][0]] + 1;
    assert b.sorted != [] ==> UniformColumn(b.sorted[0], size);
    WithoutColumnsOk(b.sorted, x, size, bound);
    WithoutSubset(b.unsorted, x);
  }

  lemma InFlat(columns: seq<seq<nat>>, i: nat, x: nat)
    requires i < |columns| && x in columns[i]
    ensures x in multiset(Flat(columns))
  {
    FlatAround(columns, i);
  }

  lemma {:induction false} FindInFlat(columns: seq<seq<nat>>, y: nat) returns (j: nat)
    requires y in multiset(Flat(columns))
    ensures j < |columns| && y in columns[j]
  {
    if y in columns[0] {
      j := 0;
    } else {
      j := FindInFlat(columns[1..], y);
      j := j + 1;
    }
  }

  /** Only the sizes of its own chunks matter for a bin. */
  lemma BinFrame(b: Bin, size: seq<nat>, size': seq<nat>)
    requires BinSorted(b, size) && |size| == |size'|
    requires forall x :: x in Members(b) ==> x < |size| && size'[x] == size[x]
    ensures BinSorted(b, size')
  {
    forall i | 0 <= i < |b.sorted| ensures UniformColumn(b.sorted[i], size') && size'[b.sorted[i][0]] == size[b.sorted[i][0]] {
      assert UniformColumn(b.sorted[i], size) && b.sorted[i][0] in b.sorted[i];
      forall x | x in b.sorted[i] ensures x in Members(b) { InFlat(b.sorted, i, x); }
    }
  }
}
