/** The address trie of c7/stm/list.[ch] (and, under another name, c4/lists.[ch]):
    nodes of sixteen slots and items, both carved from one growing buffer and
    linked by addresses.  Deleting leaves the item in place with the key 0. */
module Trie {
  import opened TrieKeys

  const NODE_SIZE: nat := 128     // sizeof(wlog_node_t)
  const LOG_SIZE: nat := 16       // sizeof(wlog_t)
  const TOP: nat := 0             // the address that stands for toplevel

  datatype Slot = Null | Down(node: nat) | Item(log: nat)

  datatype Log = Log(addr: Key, val: int)

  /** The memory of a tree.  `path` (the digits that lead to a node), `place` (the
      slot of an item) and `content` are bookkeeping. */
  datatype Tree = Tree(
    scheme: Scheme,
    nodes: map<nat, seq<Slot>>,
    logs: map<nat, Log>,
    used: nat,                    // raw_current - raw_start
    end: nat,                     // raw_end - raw_start
    path: map<nat, seq<nat>>,
    place: map<nat, (nat, nat)>,
    content: map<Key, int>)

  function Digits(sch: Scheme, key: Key, n: nat): (s: seq<nat>)
    ensures |s| == n && forall i :: 0 <= i < n ==> s[i] == Digit(sch, key, i)
  {
    seq(n, i requires 0 <= i < n => Digit(sch, key, i))
  }

  /** The digits of the key begin with the path and then i. */
  ghost predicate LeadsTo(sch: Scheme, key: Key, path: seq<nat>, i: nat) {
    Digits(sch, key, |path| + 1) == path + [i]
  }

  ghost predicate NodeOk(t: Tree, n: nat) {
    && n in t.nodes && n in t.path && |t.nodes[n]| == ARITY && |t.path[n]| < DEPTH_MAX
    && (n == TOP <==> t.path[n] == [])
    && (forall i: nat {:trigger t.nodes[n][i]} :: i < ARITY ==> SlotOk(t, n, i))
  }

  ghost predicate SlotOk(t: Tree, n: nat, i: nat)
    requires n in t.nodes && n in t.path && i < |t.nodes[n]|
  {
    match t.nodes[n][i]
    case Null => true
    case Down(m) => m in t.nodes && m in t.path && t.path[m] == t.path[n] + [i]
    case Item(w) =>
      && w in t.logs && w in t.place && t.place[w] == (n, i)
      && (t.logs[w].addr != NO_KEY ==>
        (IsKey(t.logs[w].addr) && LeadsTo(t.scheme, t.logs[w].addr, t.path[n], i)
         && t.logs[w].addr in t.content && t.content[t.logs[w].addr] == t.logs[w].val))
  }

  /** The slot that leads to a node. */
  ghost predicate Linked(t: Tree, m: nat)
    requires m in t.path && t.path[m] != []
  {
    exists n :: n in t.nodes && n in t.path && t.path[n] == t.path[m][..|t.path[m]| - 1]
      && t.path[m][|t.path[m]| - 1] < |t.nodes[n]| && t.nodes[n][t.path[m][|t.path[m]| - 1]] == Down(m)
  }

  ghost predicate Stored(t: Tree, key: Key) {
    exists w :: w in t.logs && t.logs[w].addr == key && Placed(t, w)
  }

  ghost predicate Placed(t: Tree, w: nat) {
    w in t.place && t.place[w].0 in t.nodes && t.place[w].1 < |t.nodes[t.place[w].0]| && t.nodes[t.place[w].0][t.place[w].1] == Item(w)
  }

  ghost predicate NodesOk(t: Tree) {
    forall n: nat {:trigger NodeOk(t, n)} :: n in t.nodes ==> NodeOk(t, n)
  }

  ghost predicate PathsOk(t: Tree) {
    && (forall m: nat, n: nat {:trigger t.path[m], t.path[n]} :: m in t.path && n in t.path && t.path[m] == t.path[n] ==> m == n)
    && (forall m: nat {:trigger Linked(t, m)} :: m in t.path && m != TOP ==> t.path[m] != [] && Linked(t, m))
  }

  ghost predicate ContentOk(t: Tree) {
    forall key: Key :: key in t.content ==> key != NO_KEY && Stored(t, key)
  }

  ghost predicate SpaceOk(t: Tree) {
    && (forall a: nat :: a in t.nodes ==> a <= t.used)
    && (forall a: nat :: a in t.logs ==> a <= t.used && a !in t.nodes)
    && t.used == NODE_SIZE * (|t.nodes| - 1) + LOG_SIZE * |t.logs|
  }

  ghost predicate TreeOk(t: Tree) {
    TOP in t.nodes && t.nodes.Keys == t.path.Keys && NodesOk(t) && PathsOk(t) && ContentOk(t) && SpaceOk(t)
  }

  /** Searching for the key, we came to node n. */
  ghost predicate Passes(t: Tree, key: Key, n: nat) {
    n in t.path && |t.path[n]| < DEPTH_MAX && t.path[n] == Digits(t.scheme, key, |t.path[n]|)
  }

  lemma Parent(t: Tree, m: nat) returns (n: nat)
    requires TreeOk(t) && m in t.path && t.path[m] != []
    ensures n in t.nodes && n in t.path && t.path[n] == t.path[m][..|t.path[m]| - 1]
    ensures t.path[m][|t.path[m]| - 1] < |t.nodes[n]| && t.nodes[n][t.path[m][|t.path[m]| - 1]] == Down(m)
  {
    assert NodeOk(t, m) && Linked(t, m);
    n :| n in t.nodes && n in t.path && t.path[n] == t.path[m][..|t.path[m]| - 1]
      && t.path[m][|t.path[m]| - 1] < |t.nodes[n]| && t.nodes[n][t.path[m][|t.path[m]| - 1]] == Down(m);
  }

  /** On the way to node m, at depth e. */
  lemma {:induction false} Ancestor(t: Tree, m: nat, e: nat) returns (n: nat)
    requires TreeOk(t) && m in t.path && e < |t.path[m]|
    ensures n in t.nodes && n in t.path && t.path[n] == t.path[m][..e]
    ensures t.path[m][e] < |t.nodes[n]| && t.nodes[n][t.path[m][e]].Down?
    decreases |t.path[m]|
  {
    n := Parent(t, m);
    if e < |t.path[m]| - 1 {
      var p := n;
      n := Ancestor(t, p, e);
      assert t.path[m][e] == t.path[p][e];
    }
  }

  /** Above a node, the slot on the way to it leads down. */
  lemma DownAbove(t: Tree, m: nat, n: nat)
    requires TreeOk(t) && m in t.path && n in t.path && n in t.nodes && |t.path[n]| < |t.path[m]| && t.path[m][..|t.path[n]|] == t.path[n]
    ensures t.path[m][|t.path[n]|] < |t.nodes[n]| && t.nodes[n][t.path[m][|t.path[n]|]].Down?
  {
    var q := Ancestor(t, m, |t.path[n]|);
    assert t.path[q] == t.path[n];
  }

  /** Where the search for a key ends: in this slot of node n. */
  function SlotFor(t: Tree, key: Key, n: nat): Slot
    requires n in t.nodes && n in t.path && |t.nodes[n]| == ARITY
  {
    t.nodes[n][Digit(t.scheme, key, |t.path[n]|)]
  }

  lemma FoundWhereStored(t: Tree, key: Key, n: nat)
    requires TreeOk(t) && Passes(t, key, n) && key in t.content && NodeOk(t, n) && !SlotFor(t, key, n).Down?
    ensures SlotFor(t, key, n).Item? && SlotFor(t, key, n).log in t.logs && t.logs[SlotFor(t, key, n).log].addr == key
  {
    assert Stored(t, key) && key != NO_KEY;
    var w :| w in t.logs && t.logs[w].addr == key && Placed(t, w);
    var (n', i') := t.place[w];
    assert NodeOk(t, n');
    assert SlotOk(t, n', i');
    SamePlace(t, key, n, n', i');
  }

  lemma SamePlace(t: Tree, key: Key, n: nat, n': nat, i': nat)
    requires TreeOk(t) && Passes(t, key, n) && NodeOk(t, n) && !SlotFor(t, key, n).Down?
    requires NodeOk(t, n') && i' < ARITY && t.nodes[n'][i'].Item? && LeadsTo(t.scheme, key, t.path[n'], i')
    ensures n' == n && i' == Digit(t.scheme, key, |t.path[n]|)
  {
    var d, d' := |t.path[n]|, |t.path[n']|;
    assert Digits(t.scheme, key, d' + 1)[d'] == i' && t.path[n'] == Digits(t.scheme, key, d');
    if d' > d { DownOnTheWay(t, key, n', n); }
    if d' < d { DownOnTheWay(t, key, n, n'); }
    assert d' == d ==> t.path[n'] == t.path[n];
  }

  /** Above a node that a key leads to, the slot for the key leads down. */
  lemma DownOnTheWay(t: Tree, key: Key, m: nat, n: nat)
    requires TreeOk(t) && m in t.path && n in t.path && n in t.nodes && |t.nodes[n]| == ARITY && |t.path[n]| < |t.path[m]|
    requires t.path[m] == Digits(t.scheme, key, |t.path[m]|) && t.path[n] == Digits(t.scheme, key, |t.path[n]|)
    ensures SlotFor(t, key, n).Down?
  {
    DownAbove(t, m, n);
  }

  /** An item that is found carries the value of the content. */
  lemma ItemIsStored(t: Tree, n: nat, i: nat)
    requires TreeOk(t) && n in t.nodes && i < |t.nodes[n]| && t.nodes[n][i].Item?
    ensures var w := t.nodes[n][i].log;
      w in t.logs && (t.logs[w].addr != NO_KEY ==> t.logs[w].addr in t.content && t.content[t.logs[w].addr] == t.logs[w].val)
  {
    assert NodeOk(t, n) && SlotOk(t, n, i);
  }

  // ----- the steps of an insertion

  function SetSlot(t: Tree, n: nat, i: nat, s: Slot): map<nat, seq<Slot>>
    requires n in t.nodes && i < |t.nodes[n]|
  {
    t.nodes[n := t.nodes[n][i := s]]
  }

  /** The empty slot gets a new item. */
  ghost function AddItem(t: Tree, n: nat, key: Key, val: int): Tree
    requires n in t.nodes && n in t.path && |t.nodes[n]| == ARITY
  {
    var i, a := Digit(t.scheme, key, |t.path[n]|), t.used + 1;
    t.(nodes := SetSlot(t, n, i, Item(a)), logs := t.logs[a := Log(key, val)], used := t.used + LOG_SIZE,
       place := t.place[a := (n, i)], content := t.content[key := val])
  }

  /** A deleted item is used again. */
  ghost function Reuse(t: Tree, w: nat, key: Key, val: int): Tree {
    t.(logs := t.logs[w := Log(key, val)], content := t.content[key := val])
  }

  /** A new node takes the place of an item, which moves one level down. */
  ghost function Split(t: Tree, n: nat, i: nat): Tree
    requires n in t.nodes && n in t.path && i < |t.nodes[n]| && t.nodes[n][i].Item? && t.nodes[n][i].log in t.logs
  {
    var w, a := t.nodes[n][i].log, t.used + 1;
    var j := Digit(t.scheme, t.logs[w].addr, |t.path[n]| + 1);
    t.(nodes := SetSlot(t, n, i, Down(a))[a := seq(ARITY, k => if k == j then Item(w) else Null)], used := t.used + NODE_SIZE,
       path := t.path[a := t.path[n] + [i]], place := t.place[w := (a, j)])
  }

  /** The slot that a search came to is the one for the key. */
  lemma KeyFits(t: Tree, key: Key, n: nat)
    requires Passes(t, key, n)
    ensures LeadsTo(t.scheme, key, t.path[n], Digit(t.scheme, key, |t.path[n]|))
  {
  }

  /** A slot whose item, if any, and whose paths did not change. */
  lemma SlotStays(t: Tree, t': Tree, n: nat, i: nat)
    requires t'.scheme == t.scheme && n in t.nodes && n in t.path && i < |t.nodes[n]| && SlotOk(t, n, i)
    requires n in t'.nodes && n in t'.path && i < |t'.nodes[n]| && t'.nodes[n][i] == t.nodes[n][i] && t'.path[n] == t.path[n]
    requires t.nodes[n][i].Down? ==> var m := t.nodes[n][i].node; m in t'.nodes && m in t'.path && t'.path[m] == t.path[m]
    requires t.nodes[n][i].Item? ==> var w := t.nodes[n][i].log;
      w in t'.logs && w in t'.place && t'.place[w] == t.place[w] && t'.logs[w] == t.logs[w]
      && (t.logs[w].addr != NO_KEY ==> t.logs[w].addr in t'.content && t'.content[t.logs[w].addr] == t.logs[w].val)
    ensures SlotOk(t', n, i)
  {
  }

  lemma AddedSlot(t: Tree, n: nat, key: Key, val: int, m: nat, j: nat)
    requires NodeOk(t, n) && Passes(t, key, n) && IsKey(key) && key !in t.content && t.used + 1 !in t.logs
    requires m in t.nodes && m in t.path && |t.nodes[m]| == ARITY && j < ARITY && SlotOk(t, m, j)
    ensures var t' := AddItem(t, n, key, val); |t'.nodes[m]| == ARITY && SlotOk(t', m, j)
  {
    KeyFits(t, key, n);
    if m != n || j != Digit(t.scheme, key, |t.path[n]|) { SlotStays(t, AddItem(t, n, key, val), m, j); }
  }

  lemma Fresh(t: Tree)
    requires TreeOk(t)
    ensures t.used + 1 !in t.logs && t.used + 1 !in t.nodes && t.used + 1 !in t.path && t.used + 1 != TOP
    ensures forall m: nat :: m in t.nodes ==> NodeOk(t, m) && forall j: nat :: j < ARITY ==> SlotOk(t, m, j)
  {
    forall m: nat | m in t.nodes ensures NodeOk(t, m) && forall j: nat :: j < ARITY ==> SlotOk(t, m, j) {
      assert NodeOk(t, m);
      forall j: nat | j < ARITY ensures SlotOk(t, m, j) { assert t.nodes[m][j] == t.nodes[m][j]; }
    }
  }

  lemma Added(t: Tree, n: nat, key: Key, val: int)
    requires TreeOk(t) && NodeOk(t, n) && Passes(t, key, n) && IsKey(key) && key !in t.content
    ensures forall m: nat {:trigger NodeOk(AddItem(t, n, key, val), m)} :: m in t.nodes ==> NodeOk(AddItem(t, n, key, val), m)
  {
    Fresh(t);
    forall m: nat | m in t.nodes ensures NodeOk(AddItem(t, n, key, val), m) {
      assert NodeOk(t, m);
      forall j: nat | j < ARITY ensures |AddItem(t, n, key, val).nodes[m]| == ARITY && SlotOk(AddItem(t, n, key, val), m, j) {
        AddedSlot(t, n, key, val, m, j);
      }
    }
  }

  lemma LinkStays(t: Tree, t': Tree, m: nat)
    requires m in t.path && t.path[m] != [] && Linked(t, m) && m in t'.path && t'.path[m] == t.path[m]
    requires forall n: nat, i: nat {:trigger t.nodes[n][i]} :: n in t.nodes && i < |t.nodes[n]| && t.nodes[n][i].Down? ==>
      n in t'.nodes && i < |t'.nodes[n]| && t'.nodes[n][i] == t.nodes[n][i]
    requires forall n: nat :: n in t.path ==> n in t'.path && t'.path[n] == t.path[n]
    ensures Linked(t', m)
  {
    var n :| n in t.nodes && n in t.path && t.path[n] == t.path[m][..|t.path[m]| - 1]
      && t.path[m][|t.path[m]| - 1] < |t.nodes[n]| && t.nodes[n][t.path[m][|t.path[m]| - 1]] == Down(m);
    assert n in t'.nodes && t'.nodes[n][t.path[m][|t.path[m]| - 1]] == Down(m);
  }

  /** The nodes are linked as before. */
  lemma LinksStay(t: Tree, t': Tree)
    requires TreeOk(t) && t'.path == t.path
    requires forall n: nat, i: nat {:trigger t.nodes[n][i]} :: n in t.nodes && i < |t.nodes[n]| && t.nodes[n][i].Down? ==>
      n in t'.nodes && i < |t'.nodes[n]| && t'.nodes[n][i] == t.nodes[n][i]
    ensures forall m: nat {:trigger Linked(t', m)} {:trigger t'.path[m]} :: m in t'.path && m != TOP ==> t'.path[m] != [] && Linked(t', m)
  {
    forall m: nat | m in t'.path && m != TOP ensures t'.path[m] != [] && Linked(t', m) {
      assert NodeOk(t, m);
      assert Linked(t, m);
      LinkStays(t, t', m);
    }
  }

  lemma PathsStay(t: Tree, t': Tree)
    requires TreeOk(t) && t'.path == t.path
    requires forall n: nat, i: nat {:trigger t.nodes[n][i]} :: n in t.nodes && i < |t.nodes[n]| && t.nodes[n][i].Down? ==>
      n in t'.nodes && i < |t'.nodes[n]| && t'.nodes[n][i] == t.nodes[n][i]
    ensures PathsOk(t')
  {
    LinksStay(t, t');
  }

  /** Stored items stay stored. */
  lemma StoredStays(t: Tree, t': Tree, k: Key)
    requires Stored(t, k)
    requires forall w: nat {:trigger Placed(t, w)} :: w in t.logs && t.logs[w].addr == k && Placed(t, w) ==>
      w in t'.logs && t'.logs[w] == t.logs[w] && Placed(t', w)
    ensures Stored(t', k)
  {
    var w :| w in t.logs && t.logs[w].addr == k && Placed(t, w);
    assert Placed(t', w);
  }

  lemma AddedSpace(t: Tree, n: nat, key: Key, val: int)
    requires SpaceOk(t) && n in t.nodes && n in t.path && |t.nodes[n]| == ARITY && t.used + 1 !in t.logs && t.used + 1 !in t.nodes
    ensures SpaceOk(AddItem(t, n, key, val))
  {
    var t' := AddItem(t, n, key, val);
    assert t'.nodes.Keys == t.nodes.Keys;
    assert |t'.nodes| == |t'.nodes.Keys| == |t.nodes.Keys| == |t.nodes|;
  }

  lemma AddItemOk(t: Tree, n: nat, key: Key, val: int)
    requires TreeOk(t) && Passes(t, key, n) && NodeOk(t, n) && SlotFor(t, key, n).Null? && IsKey(key) && key !in t.content
    ensures TreeOk(AddItem(t, n, key, val))
  {
    hide SpaceOk, Stored;
    var t' := AddItem(t, n, key, val);
    Fresh(t);
    assert NodesOk(t') by { Added(t, n, key, val); }
    PathsStay(t, t');
    AddedSpace(t, n, key, val);
    assert ContentOk(t') by { AddedStored(t, n, key, val); }
  }

  lemma AddedStored(t: Tree, n: nat, key: Key, val: int)
    requires ContentOk(t) && n in t.nodes && n in t.path && |t.nodes[n]| == ARITY && SlotFor(t, key, n).Null? && IsKey(key)
    requires t.used + 1 !in t.logs
    ensures forall k: Key :: k in AddItem(t, n, key, val).content ==> k != NO_KEY && Stored(AddItem(t, n, key, val), k)
  {
    var t' := AddItem(t, n, key, val);
    forall k: Key | k in t'.content ensures k != NO_KEY && Stored(t', k) {
      if k == key { AddedHere(t, n, key, val); } else { assert Stored(t, k); AddedStays(t, n, key, val, k); }
    }
  }

  lemma AddedHere(t: Tree, n: nat, key: Key, val: int)
    requires n in t.nodes && n in t.path && |t.nodes[n]| == ARITY
    ensures Stored(AddItem(t, n, key, val), key)
  {
    assert Placed(AddItem(t, n, key, val), t.used + 1);
  }

  lemma AddedStays(t: Tree, n: nat, key: Key, val: int, k: Key)
    requires n in t.nodes && n in t.path && |t.nodes[n]| == ARITY && t.nodes[n][Digit(t.scheme, key, |t.path[n]|)].Null?
    requires t.used + 1 !in t.logs && Stored(t, k)
    ensures Stored(AddItem(t, n, key, val), k)
  {
    var w :| w in t.logs && t.logs[w].addr == k && Placed(t, w);
    assert Placed(AddItem(t, n, key, val), w);
  }

  lemma ReusedSlot(t: Tree, n: nat, w: nat, key: Key, val: int, m: nat, j: nat)
    requires NodeOk(t, n) && Passes(t, key, n) && w in t.logs && t.logs[w].addr == NO_KEY && w in t.place && t.place[w] == (n, Digit(t.scheme, key, |t.path[n]|))
    requires IsKey(key) && key !in t.content && m in t.nodes && m in t.path && |t.nodes[m]| == ARITY && j < ARITY && SlotOk(t, m, j)
    ensures SlotOk(Reuse(t, w, key, val), m, j)
  {
    KeyFits(t, key, n);
    if t.nodes[m][j] != Item(w) { SlotStays(t, Reuse(t, w, key, val), m, j); }
  }

  lemma ReuseOk(t: Tree, n: nat, w: nat, key: Key, val: int)
    requires TreeOk(t) && Passes(t, key, n) && NodeOk(t, n) && SlotFor(t, key, n) == Item(w) && w in t.logs && t.logs[w].addr == NO_KEY
    requires IsKey(key) && key !in t.content
    ensures TreeOk(Reuse(t, w, key, val))
  {
    var t' := Reuse(t, w, key, val);
    Fresh(t);
    assert SlotOk(t, n, Digit(t.scheme, key, |t.path[n]|));
    forall m: nat | m in t'.nodes ensures NodeOk(t', m) { ReusedNode(t, n, w, key, val, m); }
    LinksStay(t, t');
    ReusedCount(t, w, key, val);
    ReusedStored(t, n, w, key, val);
  }

  lemma ReusedCount(t: Tree, w: nat, key: Key, val: int)
    requires w in t.logs
    ensures Reuse(t, w, key, val).logs.Keys == t.logs.Keys && |Reuse(t, w, key, val).logs| == |t.logs|
  {
    var t' := Reuse(t, w, key, val);
    assert t'.logs.Keys == t.logs.Keys && |t'.logs| == |t'.logs.Keys| && |t.logs| == |t.logs.Keys|;
  }

  lemma ReusedNode(t: Tree, n: nat, w: nat, key: Key, val: int, m: nat)
    requires TreeOk(t) && Passes(t, key, n) && NodeOk(t, n) && SlotFor(t, key, n) == Item(w) && w in t.logs && t.logs[w].addr == NO_KEY
    requires IsKey(key) && key !in t.content && m in t.nodes
    ensures NodeOk(Reuse(t, w, key, val), m)
  {
    var t' := Reuse(t, w, key, val);
    assert NodeOk(t, m);
    forall j: nat | j < ARITY ensures SlotOk(t', m, j) { ReusedSlot(t, n, w, key, val, m, j); }
  }

  lemma ReusedStored(t: Tree, n: nat, w: nat, key: Key, val: int)
    requires TreeOk(t) && NodeOk(t, n) && Passes(t, key, n) && SlotFor(t, key, n) == Item(w) && w in t.logs && t.logs[w].addr == NO_KEY
    requires IsKey(key) && w in t.place && t.place[w] == (n, Digit(t.scheme, key, |t.path[n]|))
    ensures forall k: Key :: k in Reuse(t, w, key, val).content ==> k != NO_KEY && Stored(Reuse(t, w, key, val), k)
  {
    var t' := Reuse(t, w, key, val);
    forall k: Key | k in t'.content ensures k != NO_KEY && Stored(t', k) {
      if k == key { assert Placed(t', w); } else { StoredStays(t, t', k); }
    }
  }

  /** Two keys in one slot part further down. */
  lemma KeysPart(sch: Scheme, x: Key, y: Key, d: nat)
    requires IsKey(x) && IsKey(y) && x != y && d < DEPTH_MAX && Digits(sch, x, d + 1) == Digits(sch, y, d + 1)
    ensures d + 1 < DEPTH_MAX
  {
    DigitsDiffer(sch, x, y);
    var e: nat :| e < DEPTH_MAX && Digit(sch, x, e) != Digit(sch, y, e);
    SameDigit(sch, x, y, d + 1, e);
  }

  lemma SameDigit(sch: Scheme, x: Key, y: Key, d: nat, e: nat)
    requires Digits(sch, x, d) == Digits(sch, y, d)
    ensures e < d ==> Digit(sch, x, e) == Digit(sch, y, e)
  {
    if e < d { assert Digits(sch, x, d)[e] == Digits(sch, y, d)[e]; }
  }

  ghost predicate CanSplit(t: Tree, n: nat, i: nat) {
    && n in t.nodes && NodeOk(t, n) && i < ARITY && t.nodes[n][i].Item? && |t.path[n]| + 1 < DEPTH_MAX && SlotOk(t, n, i)
    && t.nodes[n][i].log in t.logs && t.logs[t.nodes[n][i].log].addr != NO_KEY
    && t.used + 1 !in t.nodes && t.used + 1 !in t.path && t.used + 1 != TOP && t.used + 1 !in t.logs
  }

  lemma SplitSlot(t: Tree, n: nat, i: nat, m: nat, j: nat)
    requires CanSplit(t, n, i)
    requires m in t.nodes && m in t.path && |t.nodes[m]| == ARITY && j < ARITY && SlotOk(t, m, j)
    ensures m in Split(t, n, i).nodes && m in Split(t, n, i).path && |Split(t, n, i).nodes[m]| == ARITY && SlotOk(Split(t, n, i), m, j)
  {
    if m != n || j != i { SlotStays(t, Split(t, n, i), m, j); }
  }

  lemma MovesDown(sch: Scheme, key: Key, path: seq<nat>, i: nat)
    requires LeadsTo(sch, key, path, i)
    ensures LeadsTo(sch, key, path + [i], Digit(sch, key, |path| + 1))
  {
    assert Digits(sch, key, |path| + 2) == Digits(sch, key, |path| + 1) + [Digit(sch, key, |path| + 1)];
  }

  lemma SplitNewSlot(t: Tree, n: nat, i: nat, j: nat)
    requires CanSplit(t, n, i) && j < ARITY
    ensures var a := t.used + 1; SlotOk(Split(t, n, i), a, j)
  {
    MovesDown(t.scheme, t.logs[t.nodes[n][i].log].addr, t.path[n], i);
  }

  lemma SplitNode(t: Tree, n: nat, i: nat, m: nat)
    requires CanSplit(t, n, i) && m in t.nodes && NodeOk(t, m)
    ensures NodeOk(Split(t, n, i), m)
  {
    assert |Split(t, n, i).nodes[m]| == ARITY;
    forall j: nat | j < ARITY ensures SlotOk(Split(t, n, i), m, j) {
      assert t.nodes[m][j] == t.nodes[m][j];
      SplitSlot(t, n, i, m, j);
    }
  }

  lemma SplitNewNode(t: Tree, n: nat, i: nat)
    requires CanSplit(t, n, i)
    ensures NodeOk(Split(t, n, i), t.used + 1)
  {
    var t', a := Split(t, n, i), t.used + 1;
    forall j: nat | j < ARITY ensures SlotOk(t', a, j) { SplitNewSlot(t, n, i, j); }
  }

  lemma SplitNodes(t: Tree, n: nat, i: nat)
    requires CanSplit(t, n, i) && NodesOk(t)
    ensures NodesOk(Split(t, n, i))
  {
    forall m: nat | m in Split(t, n, i).nodes ensures NodeOk(Split(t, n, i), m) {
      if m == t.used + 1 {
        SplitNewNode(t, n, i);
      } else {
        assert NodeOk(t, m);
        SplitNode(t, n, i, m);
      }
    }
  }

  lemma SplitSpace(t: Tree, n: nat, i: nat)
    requires CanSplit(t, n, i) && SpaceOk(t)
    ensures SpaceOk(Split(t, n, i))
  {
    var t' := Split(t, n, i);
    assert t'.nodes.Keys == t.nodes.Keys + {t.used + 1};
    assert |t'.nodes| == |t'.nodes.Keys| && |t.nodes.Keys| == |t.nodes|;
  }

  lemma SplitOk(t: Tree, n: nat, i: nat)
    requires CanSplit(t, n, i) && TreeOk(t)
    ensures TreeOk(Split(t, n, i))
  {
    SplitNodes(t, n, i);
    SplitPaths(t, n, i);
    SplitSpace(t, n, i);
    SplitContent(t, n, i);
  }

  lemma SplitContent(t: Tree, n: nat, i: nat)
    requires CanSplit(t, n, i) && ContentOk(t)
    ensures ContentOk(Split(t, n, i))
  {
    forall k: Key | k in t.content ensures k != NO_KEY && Stored(Split(t, n, i), k) { SplitStored(t, n, i, k); }
  }

  lemma SplitStored(t: Tree, n: nat, i: nat, k: Key)
    requires CanSplit(t, n, i) && k in t.content && Stored(t, k)
    ensures Stored(Split(t, n, i), k)
  {
    var v :| v in t.logs && t.logs[v].addr == k && Placed(t, v);
    assert Placed(Split(t, n, i), v);
  }

  lemma SplitLinked(t: Tree, n: nat, i: nat)
    requires CanSplit(t, n, i)
    ensures Linked(Split(t, n, i), t.used + 1)
  {
    var t', a := Split(t, n, i), t.used + 1;
    assert t'.path[a][..|t'.path[a]| - 1] == t.path[n];
    assert n in t'.nodes && t'.nodes[n][i] == Down(a);
  }

  lemma SplitLinks(t: Tree, n: nat, i: nat, m: nat)
    requires CanSplit(t, n, i) && m in t.path && t.path[m] != [] && Linked(t, m)
    ensures Linked(Split(t, n, i), m)
  {
    LinkStays(t, Split(t, n, i), m);
  }

  lemma SplitDifferent(t: Tree, n: nat, i: nat)
    requires CanSplit(t, n, i) && TreeOk(t)
    ensures var t' := Split(t, n, i);
      forall m: nat, k: nat {:trigger t'.path[m], t'.path[k]} :: m in t'.path && k in t'.path && t'.path[m] == t'.path[k] ==> m == k
  {
    forall m: nat | m in t.path ensures t.path[m] != t.path[n] + [i] { NoNodeThere(t, n, i, m); }
  }

  lemma NotTop(t: Tree, m: nat)
    requires TreeOk(t) && m in t.path && m != TOP
    ensures t.path[m] != [] && Linked(t, m)
  {
    assert NodeOk(t, m);
    assert Linked(t, m);
  }

  lemma SplitAllLinks(t: Tree, n: nat, i: nat, m: nat)
    requires CanSplit(t, n, i) && TreeOk(t) && m in Split(t, n, i).path && m != TOP
    ensures Split(t, n, i).path[m] != [] && Linked(Split(t, n, i), m)
  {
    hide NodeOk, Linked;
    if m == t.used + 1 {
      SplitLinked(t, n, i);
    } else {
      NotTop(t, m);
      SplitLinks(t, n, i, m);
    }
  }

  lemma SplitPaths(t: Tree, n: nat, i: nat)
    requires CanSplit(t, n, i) && TreeOk(t)
    ensures PathsOk(Split(t, n, i))
  {
    SplitDifferent(t, n, i);
    forall m: nat | m in Split(t, n, i).path && m != TOP ensures Split(t, n, i).path[m] != [] && Linked(Split(t, n, i), m) {
      SplitAllLinks(t, n, i, m);
    }
  }

  lemma NoNodeThere(t: Tree, n: nat, i: nat, m: nat)
    requires TreeOk(t) && n in t.nodes && NodeOk(t, n) && i < ARITY && !t.nodes[n][i].Down? && m in t.path
    ensures t.path[m] != t.path[n] + [i]
  {
    if t.path[m] == t.path[n] + [i] { DownAbove(t, m, n); }
  }

  // ----- deleting

  ghost function Delete(t: Tree, w: nat): Tree
    requires w in t.logs
  {
    t.(logs := t.logs[w := t.logs[w].(addr := NO_KEY)], content := t.content - {t.logs[w].addr})
  }

  lemma OneItem(t: Tree, w: nat, v: nat)
    requires TreeOk(t) && w in t.logs && v in t.logs && Placed(t, w) && Placed(t, v) && t.logs[w].addr == t.logs[v].addr != NO_KEY
    ensures w == v
  {
    var n, i, m, j := t.place[w].0, t.place[w].1, t.place[v].0, t.place[v].1;
    assert NodeOk(t, n) && NodeOk(t, m);
    assert SlotOk(t, n, i) && SlotOk(t, m, j);
    var key := t.logs[w].addr;
    assert Digits(t.scheme, key, |t.path[n]| + 1)[|t.path[n]|] == i;
    assert Digits(t.scheme, key, |t.path[n]| + 1)[..|t.path[n]|] == Digits(t.scheme, key, |t.path[n]|) == t.path[n];
    SamePlace(t, key, n, m, j);
  }

  lemma DeletedNodes(t: Tree, w: nat)
    requires TreeOk(t) && w in t.logs && Placed(t, w) && t.logs[w].addr != NO_KEY
    ensures NodesOk(Delete(t, w))
  {
    forall m: nat | m in t.nodes ensures NodeOk(Delete(t, w), m) {
      assert NodeOk(t, m);
      forall j: nat | j < ARITY ensures SlotOk(Delete(t, w), m, j) { DeletedSlot(t, w, m, j); }
    }
  }

  lemma DeletedContent(t: Tree, w: nat)
    requires ContentOk(t) && w in t.logs
    ensures ContentOk(Delete(t, w))
  {
    forall k: Key | k in Delete(t, w).content ensures k != NO_KEY && Stored(Delete(t, w), k) {
      assert Stored(t, k);
      StoredStays(t, Delete(t, w), k);
    }
  }

  lemma DeleteOk(t: Tree, w: nat)
    requires TreeOk(t) && w in t.logs && Placed(t, w) && t.logs[w].addr != NO_KEY
    ensures TreeOk(Delete(t, w))
  {
    var t' := Delete(t, w);
    assert t'.logs.Keys == t.logs.Keys && |t'.logs| == |t'.logs.Keys| && |t.logs| == |t.logs.Keys|;
    DeletedNodes(t, w);
    PathsStay(t, t');
    DeletedContent(t, w);
  }

  lemma DeletedSlot(t: Tree, w: nat, m: nat, j: nat)
    requires TreeOk(t) && w in t.logs && Placed(t, w) && t.logs[w].addr != NO_KEY && m in t.nodes && NodeOk(t, m) && j < ARITY
    ensures SlotOk(Delete(t, w), m, j)
  {
    assert SlotOk(t, m, j);
    if t.nodes[m][j].Item? {
      var v := t.nodes[m][j].log;
      if v != w {
        if t.logs[v].addr == t.logs[w].addr { OneItem(t, w, v); }
        SlotStays(t, Delete(t, w), m, j);
      }
    } else {
      SlotStays(t, Delete(t, w), m, j);
    }
  }
}
