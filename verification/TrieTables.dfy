/** struct tree_s in place (c7/stm/list.[ch]): it agrees with a map, and its
    rebuild in a larger buffer never runs out of room itself. */
module TrieTables {
  import opened Wrappers
  import opened TrieKeys
  import opened Trie
  import opened TrieOrder

  /** The most that one insertion takes: a node at each level but the top one, and an item. */
  const NEED: nat := (DEPTH_MAX - 1) * NODE_SIZE + LOG_SIZE

  // ----- how much room a set of keys needs

  /** Two of the keys begin with these digits. */
  ghost predicate Shared(sch: Scheme, keys: set<Key>, p: seq<nat>) {
    exists x, y :: x in keys && y in keys && x != y && Digits(sch, x, |p|) == p && Digits(sch, y, |p|) == p
  }

  /** The tree has only the nodes that the keys need, and no deleted items. */
  ghost predicate Tight(t: Tree, keys: set<Key>) {
    && t.content.Keys <= keys && |t.logs| <= |t.content|
    && forall m: nat {:trigger t.path[m]} :: m in t.path && t.path[m] != [] ==> Shared(t.scheme, keys, t.path[m])
  }

  lemma OneMore<K, V>(m: map<K, V>, k: K, v: V)
    requires k !in m
    ensures |m[k := v]| == |m| + 1
  {
    assert m[k := v].Keys == m.Keys + {k};
    assert |m[k := v]| == |m[k := v].Keys| && |m| == |m.Keys|;
  }

  lemma GrewTight(t: Tree, t': Tree, a: nat, key: Key, g: Log, val: int, keys: set<Key>)
    requires t'.scheme == t.scheme && t'.path == t.path && t'.logs == t.logs[a := g] && t'.content == t.content[key := val]
    requires a !in t.logs && key !in t.content && key in keys
    ensures Tight(t, keys) ==> Tight(t', keys)
  {
    OneMore(t.logs, a, g);
    OneMore(t.content, key, val);
  }

  lemma WiderTight(t: Tree, few: set<Key>, keys: set<Key>)
    requires Tight(t, few) && few <= keys
    ensures Tight(t, keys)
  {
    forall m: nat {:trigger t.path[m]} | m in t.path && t.path[m] != [] ensures Shared(t.scheme, keys, t.path[m]) {
      var x, y :| x in few && y in few && x != y && Digits(t.scheme, x, |t.path[m]|) == t.path[m] && Digits(t.scheme, y, |t.path[m]|) == t.path[m];
      assert x in keys && y in keys;
    }
  }

  lemma AddTight(t: Tree, n: nat, key: Key, val: int, keys: set<Key>)
    requires n in t.nodes && n in t.path && |t.nodes[n]| == ARITY && key in keys && key !in t.content && t.used + 1 !in t.logs
    ensures Tight(t, keys) ==> Tight(AddItem(t, n, key, val), keys)
  {
    GrewTight(t, AddItem(t, n, key, val), t.used + 1, key, Log(key, val), val, keys);
  }

  lemma ReuseTight(t: Tree, w: nat, key: Key, val: int, keys: set<Key>)
    requires w in t.logs && key in keys && key !in t.content
    ensures Tight(t, keys) ==> Tight(Reuse(t, w, key, val), keys)
  {
    var t' := Reuse(t, w, key, val);
    assert t'.logs.Keys == t.logs.Keys && |t'.logs| == |t'.logs.Keys| && |t.logs| == |t.logs.Keys|;
    assert t'.content.Keys == t.content.Keys + {key} && |t'.content| == |t'.content.Keys| && |t.content| == |t.content.Keys|;
  }

  lemma SplitTight(t: Tree, n: nat, i: nat, key: Key, keys: set<Key>)
    requires CanSplit(t, n, i) && key in keys && LeadsTo(t.scheme, key, t.path[n], i) && t.logs[t.nodes[n][i].log].addr != key
    ensures Tight(t, keys) ==> Tight(Split(t, n, i), keys)
  {
    var old' := t.logs[t.nodes[n][i].log].addr;
    assert LeadsTo(t.scheme, old', t.path[n], i) && old' in t.content;
    if Tight(t, keys) { assert old' in keys && Shared(t.scheme, keys, t.path[n] + [i]); }
  }

  /** Where a key of the content is stored. */
  lemma PlaceOf(t: Tree, key: Key) returns (w: nat)
    requires TreeOk(t) && key in t.content
    ensures w in t.logs && t.logs[w].addr == key && Placed(t, w) && t.place[w].0 in t.path
    ensures NodeOk(t, t.place[w].0) && LeadsTo(t.scheme, key, t.path[t.place[w].0], t.place[w].1)
  {
    assert Stored(t, key) && key != NO_KEY;
    w :| w in t.logs && t.logs[w].addr == key && Placed(t, w);
    assert NodeOk(t, t.place[w].0);
    assert SlotOk(t, t.place[w].0, t.place[w].1);
  }

  lemma LeadsPrefix(sch: Scheme, key: Key, path: seq<nat>, i: nat, e: nat)
    requires LeadsTo(sch, key, path, i) && e <= |path|
    ensures Digits(sch, key, e) == path[..e]
  {
    assert Digits(sch, key, e) == Digits(sch, key, |path| + 1)[..e] == (path + [i])[..e] == path[..e];
  }

  /** A key stored below the digits p: the tree has a node there. */
  lemma NodeBelow(t: Tree, w: nat, p: seq<nat>) returns (m: nat)
    requires TreeOk(t) && w in t.logs && Placed(t, w) && t.place[w].0 in t.path && |p| <= |t.path[t.place[w].0]|
    requires NodeOk(t, t.place[w].0) && LeadsTo(t.scheme, t.logs[w].addr, t.path[t.place[w].0], t.place[w].1) && Digits(t.scheme, t.logs[w].addr, |p|) == p
    ensures m in t.path && t.path[m] == p
  {
    var n := t.place[w].0;
    LeadsPrefix(t.scheme, t.logs[w].addr, t.path[n], t.place[w].1, |p|);
    assert t.path[n][..|p|] == p;
    if |p| == |t.path[n]| {
      m := n;
    } else {
      m := Ancestor(t, n, |p|);
    }
  }

  lemma OnePlace(t: Tree, w: nat, v: nat, p: seq<nat>)
    requires TreeOk(t) && w in t.logs && Placed(t, w) && t.place[w].0 in t.path && v in t.logs && Placed(t, v) && t.place[v].0 in t.path
    requires NodeOk(t, t.place[w].0) && LeadsTo(t.scheme, t.logs[w].addr, t.path[t.place[w].0], t.place[w].1) && Digits(t.scheme, t.logs[w].addr, |p|) == p
    requires NodeOk(t, t.place[v].0) && LeadsTo(t.scheme, t.logs[v].addr, t.path[t.place[v].0], t.place[v].1) && Digits(t.scheme, t.logs[v].addr, |p|) == p
    requires |t.path[t.place[w].0]| < |p| && |t.path[t.place[v].0]| < |p|
    ensures w == v
  {
    var n, m, x, y := t.place[w].0, t.place[v].0, t.logs[w].addr, t.logs[v].addr;
    LeadsPrefix(t.scheme, x, t.path[n], t.place[w].1, |t.path[n]|);
    assert t.path[n] == Digits(t.scheme, x, |t.path[n]|);
    SameDigit(t.scheme, x, y, |p|, |t.path[m]|);
    Prefix(t.scheme, x, y, |p|, |t.path[m]| + 1);
    assert LeadsTo(t.scheme, x, t.path[m], t.place[v].1);
    assert Digits(t.scheme, x, |t.path[n]| + 1)[|t.path[n]|] == t.place[w].1;
    SamePlace(t, x, n, m, t.place[v].1);
  }

  /** Where two keys of the content share digits, the tree has a node. */
  lemma NodeForShared(t: Tree, p: seq<nat>) returns (m: nat)
    requires TreeOk(t) && Shared(t.scheme, t.content.Keys, p)
    ensures m in t.path && t.path[m] == p
  {
    var x, y :| x in t.content.Keys && y in t.content.Keys && x != y && Digits(t.scheme, x, |p|) == p && Digits(t.scheme, y, |p|) == p;
    var w := PlaceOf(t, x);
    var v := PlaceOf(t, y);
    if |p| <= |t.path[t.place[w].0]| {
      m := NodeBelow(t, w, p);
    } else if |p| <= |t.path[t.place[v].0]| {
      m := NodeBelow(t, v, p);
    } else {
      OnePlace(t, w, v, p);
      assert false;
    }
  }

  /** Counting along an injection. */
  lemma {:induction false} Injected<A, B>(a: set<A>, b: set<B>, f: map<A, B>)
    requires a <= f.Keys && forall x :: x in a ==> f[x] in b
    requires forall x, y :: x in a && y in a && f[x] == f[y] ==> x == y
    ensures |a| <= |b|
    decreases |a|
  {
    if a != {} {
      var x :| x in a;
      Injected(a - {x}, b - {f[x]}, f);
    }
  }

  ghost function NodeMap(t: Tree, u: Tree): (f: map<nat, nat>)
    requires forall m: nat {:trigger t.path[m]} :: m in t.path ==> exists n: nat :: n in u.path && u.path[n] == t.path[m]
    ensures f.Keys == t.path.Keys && forall m: nat :: m in t.path ==> f[m] in u.path && u.path[f[m]] == t.path[m]
  {
    map m | m in t.path :: var n: nat :| n in u.path && u.path[n] == t.path[m]; n
  }

  /** Each node of the tight tree has its like in the other. */
  lemma FewerNodes(t: Tree, u: Tree)
    requires t.scheme == u.scheme && TreeOk(t) && TreeOk(u) && Tight(t, u.content.Keys)
    ensures |t.nodes| <= |u.nodes|
  {
    forall m: nat | m in t.path ensures exists n: nat :: n in u.path && u.path[n] == t.path[m] {
      if t.path[m] == [] {
        assert NodeOk(u, TOP);
        assert u.path[TOP] == t.path[m];
      } else {
        var n := NodeForShared(u, t.path[m]);
      }
    }
    Injected(t.path.Keys, u.path.Keys, NodeMap(t, u));
    assert |t.nodes| == |t.nodes.Keys| && |u.nodes| == |u.nodes.Keys|;
  }

  ghost function LogMap(t: Tree): (f: map<Key, nat>)
    requires forall key: Key :: key in t.content ==> Stored(t, key)
    ensures f.Keys == t.content.Keys && forall key: Key :: key in t.content ==> f[key] in t.logs && t.logs[f[key]].addr == key
  {
    map key | key in t.content :: assert Stored(t, key); var w :| w in t.logs && t.logs[w].addr == key && Placed(t, w); w
  }

  lemma ContentFits(t: Tree)
    requires TreeOk(t)
    ensures |t.content| <= |t.logs|
  {
    var f := LogMap(t);
    forall x, y | x in t.content.Keys && y in t.content.Keys && f[x] == f[y] ensures x == y {
      assert t.logs[f[x]].addr == x && t.logs[f[y]].addr == y;
    }
    Injected(t.content.Keys, t.logs.Keys, f);
    assert |t.content| == |t.content.Keys| && |t.logs| == |t.logs.Keys|;
  }

  /** The keys of a tree never need more room elsewhere than they take there. */
  lemma NeverLarger(t: Tree, u: Tree)
    requires t.scheme == u.scheme && TreeOk(t) && TreeOk(u) && Tight(t, u.content.Keys)
    ensures t.used <= u.used
  {
    FewerNodes(t, u);
    ContentFits(u);
    Subset(t.content.Keys, u.content.Keys);
    assert |t.content| == |t.content.Keys| && |u.content| == |u.content.Keys|;
  }

  lemma {:induction false} Subset<A>(a: set<A>, b: set<A>)
    requires a <= b
    ensures |a| <= |b|
  {
    if a != {} {
      var x :| x in a;
      Subset(a - {x}, b - {x});
    }
  }

  // ----- the loop over the items

  ghost predicate StackOk(t: Tree, stack: seq<(nat, nat)>) {
    forall k :: 0 <= k < |stack| ==>
      stack[k].0 in t.nodes && stack[k].0 in t.path && stack[k].1 <= ARITY && |t.path[stack[k].0]| == k
  }

  /** What remains at the levels on the stack. */
  ghost function Rest(t: Tree, stack: seq<(nat, nat)>): seq<Log>
    requires TreeOk(t) && StackOk(t, stack)
  {
    if stack == [] then [] else
      var top := stack[|stack| - 1];
      From(t, top.0, top.1) + Rest(t, stack[..|stack| - 1])
  }

  /** The steps that the loop still takes. */
  ghost function Steps(t: Tree, n: nat, i: nat): (s: nat)
    requires TreeOk(t) && n in t.nodes && i <= ARITY
    ensures s > 0
    decreases DEPTH_MAX - |t.path[n]|, ARITY - i
  {
    if i == ARITY then 1
    else
      InSlot(t, n, i);
      1 + Steps(t, n, i + 1) + if t.nodes[n][i].Down? then Steps(t, t.nodes[n][i].node, 0) else 0
  }

  ghost function RestSteps(t: Tree, stack: seq<(nat, nat)>): nat
    requires TreeOk(t) && StackOk(t, stack)
  {
    if stack == [] then 0 else
      var top := stack[|stack| - 1];
      Steps(t, top.0, top.1) + RestSteps(t, stack[..|stack| - 1])
  }

  lemma Pushed(t: Tree, stack: seq<(nat, nat)>, top: (nat, nat))
    requires TreeOk(t) && StackOk(t, stack) && StackOk(t, stack + [top]) && top.0 in t.nodes && top.1 <= ARITY
    ensures Rest(t, stack + [top]) == From(t, top.0, top.1) + Rest(t, stack)
    ensures RestSteps(t, stack + [top]) == Steps(t, top.0, top.1) + RestSteps(t, stack)
  {
    assert (stack + [top])[..|stack|] == stack;
  }

  lemma Popped(t: Tree, stack: seq<(nat, nat)>)
    requires TreeOk(t) && StackOk(t, stack) && stack != []
    ensures StackOk(t, stack[..|stack| - 1])
    ensures var top := stack[|stack| - 1];
      && Rest(t, stack) == From(t, top.0, top.1) + Rest(t, stack[..|stack| - 1])
      && RestSteps(t, stack) == Steps(t, top.0, top.1) + RestSteps(t, stack[..|stack| - 1])
  {
  }

  /** One slot of the loop. */
  lemma OneSlot(t: Tree, n: nat, i: nat)
    requires TreeOk(t) && n in t.nodes && i < ARITY
    ensures n in t.path && |t.nodes[n]| == ARITY
    ensures match t.nodes[n][i]
      case Null => From(t, n, i) == From(t, n, i + 1) && Steps(t, n, i) == 1 + Steps(t, n, i + 1)
      case Down(m) =>
        && m in t.nodes && m in t.path && |t.path[m]| == |t.path[n]| + 1 < DEPTH_MAX
        && From(t, n, i) == From(t, m, 0) + From(t, n, i + 1) && Steps(t, n, i) == 1 + Steps(t, n, i + 1) + Steps(t, m, 0)
      case Item(w) =>
        && w in t.logs && Steps(t, n, i) == 1 + Steps(t, n, i + 1)
        && From(t, n, i) == (if t.logs[w].addr == NO_KEY then [] else [t.logs[w]]) + From(t, n, i + 1)
  {
    InSlot(t, n, i);
  }

  ghost predicate LoopOk(t: Tree, items: seq<Log>, stack: seq<(nat, nat)>, n: nat, next: nat) {
    && TreeOk(t) && n in t.nodes && n in t.path && next <= ARITY && StackOk(t, stack) && |stack| == |t.path[n]| < DEPTH_MAX
    && items + (From(t, n, next) + Rest(t, stack)) == Items(t)
  }

  lemma LoopStarts(t: Tree)
    requires TreeOk(t)
    ensures LoopOk(t, [], [], TOP, 0)
  {
    EveryNode(t, TOP);
  }

  lemma TopOf(t: Tree, stack: seq<(nat, nat)>)
    requires StackOk(t, stack) && stack != []
    ensures var (m, i) := stack[|stack| - 1];
      m in t.nodes && m in t.path && i <= ARITY && |t.path[m]| == |stack| - 1 && StackOk(t, stack[..|stack| - 1])
  {
  }

  lemma AtTheEnd(t: Tree, n: nat)
    requires TreeOk(t) && n in t.nodes
    ensures From(t, n, ARITY) == [] && Steps(t, n, ARITY) == 1
  {
  }

  lemma LoopPops(t: Tree, items: seq<Log>, stack: seq<(nat, nat)>, n: nat)
    requires LoopOk(t, items, stack, n, ARITY) && stack != []
    ensures var (m, i) := stack[|stack| - 1];
      && LoopOk(t, items, stack[..|stack| - 1], m, i)
      && Steps(t, m, i) + RestSteps(t, stack[..|stack| - 1]) < Steps(t, n, ARITY) + RestSteps(t, stack)
  {
    AtTheEnd(t, n);
    TopOf(t, stack);
    Popped(t, stack);
    assert [] + Rest(t, stack) == Rest(t, stack);
  }

  lemma LoopEnters(t: Tree, items: seq<Log>, stack: seq<(nat, nat)>, n: nat, i: nat)
    requires LoopOk(t, items, stack, n, i) && i < ARITY && |t.nodes[n]| == ARITY && t.nodes[n][i].Down?
    ensures var m := t.nodes[n][i].node;
      && LoopOk(t, items, stack + [(n, i + 1)], m, 0)
      && Steps(t, m, 0) + RestSteps(t, stack + [(n, i + 1)]) < Steps(t, n, i) + RestSteps(t, stack)
  {
    OneSlot(t, n, i);
    Pushes(t, stack, n, i + 1);
    Pushed(t, stack, (n, i + 1));
    var m := t.nodes[n][i].node;
    assert Rest(t, stack + [(n, i + 1)]) == From(t, n, i + 1) + Rest(t, stack);
    Assoc(From(t, m, 0), From(t, n, i + 1), Rest(t, stack));
  }

  lemma Assoc(a: seq<Log>, b: seq<Log>, c: seq<Log>)
    ensures (a + b) + c == a + (b + c)
  {
  }

  lemma Pushes(t: Tree, stack: seq<(nat, nat)>, n: nat, i: nat)
    requires StackOk(t, stack) && n in t.nodes && n in t.path && i <= ARITY && |stack| == |t.path[n]|
    ensures StackOk(t, stack + [(n, i)])
  {
  }

  lemma LoopMeets(t: Tree, items: seq<Log>, stack: seq<(nat, nat)>, n: nat, i: nat)
    requires LoopOk(t, items, stack, n, i) && i < ARITY && |t.nodes[n]| == ARITY && !t.nodes[n][i].Down?
    ensures Steps(t, n, i + 1) < Steps(t, n, i)
    ensures t.nodes[n][i].Null? ==> LoopOk(t, items, stack, n, i + 1)
    ensures t.nodes[n][i].Item? ==>
      var w := t.nodes[n][i].log;
      w in t.logs && LoopOk(t, if t.logs[w].addr == NO_KEY then items else items + [t.logs[w]], stack, n, i + 1)
  {
    OneSlot(t, n, i);
    if t.nodes[n][i].Item? {
      var w := t.nodes[n][i].log;
      if t.logs[w].addr == NO_KEY {
        assert [] + From(t, n, i + 1) == From(t, n, i + 1);
      } else {
        Regroup(items, t.logs[w], From(t, n, i + 1), Rest(t, stack));
      }
    }
  }

  lemma Regroup(items: seq<Log>, g: Log, a: seq<Log>, b: seq<Log>)
    ensures items + (([g] + a) + b) == (items + [g]) + (a + b)
  {
  }

  lemma EveryNode(t: Tree, n: nat)
    requires TreeOk(t) && n in t.nodes
    ensures NodeOk(t, n)
  {
  }

  /** A tree without items. */
  ghost function Empty(scheme: Scheme, space: nat): Tree {
    Tree(scheme, map[TOP := seq(ARITY, _ => Null)], map[], 0, space, map[TOP := []], map[], map[])
  }

  lemma EmptyOk(sch: Scheme, space: nat)
    ensures TreeOk(Empty(sch, space)) && forall keys: set<Key> :: Tight(Empty(sch, space), keys)
  {
    var t := Empty(sch, space);
    forall i: nat | i < ARITY ensures SlotOk(t, TOP, i) { assert t.nodes[TOP][i] == Null; }
    assert NodeOk(t, TOP);
  }

  lemma Descend(t: Tree, n: nat, key: Key)
    requires TreeOk(t) && n in t.nodes && NodeOk(t, n) && Passes(t, key, n) && SlotFor(t, key, n).Down?
    ensures var m := SlotFor(t, key, n).node;
      m in t.nodes && m in t.path && NodeOk(t, m) && Passes(t, key, m) && |t.path[m]| == |t.path[n]| + 1
  {
    hide TreeOk, NodeOk;
    var d := |t.path[n]|;
    InSlot(t, n, Digit(t.scheme, key, d));
    assert Digits(t.scheme, key, d + 1) == Digits(t.scheme, key, d) + [Digit(t.scheme, key, d)];
    assert NodeOk(t, SlotFor(t, key, n).node) by { EveryNode(t, SlotFor(t, key, n).node); }
  }

  /** A collision: the two keys part further down, so there is a level for the new node. */
  lemma Collision(t: Tree, n: nat, key: Key)
    requires TreeOk(t) && n in t.nodes && NodeOk(t, n) && Passes(t, key, n) && IsKey(key)
    requires SlotFor(t, key, n).Item? && SlotFor(t, key, n).log in t.logs
    requires t.logs[SlotFor(t, key, n).log].addr != NO_KEY && t.logs[SlotFor(t, key, n).log].addr != key
    ensures CanSplit(t, n, Digit(t.scheme, key, |t.path[n]|)) && LeadsTo(t.scheme, key, t.path[n], Digit(t.scheme, key, |t.path[n]|))
    ensures Passes(Split(t, n, Digit(t.scheme, key, |t.path[n]|)), key, t.used + 1)
  {
    hide TreeOk;
    var i := Digit(t.scheme, key, |t.path[n]|);
    assert SlotOk(t, n, i);
    KeyFits(t, key, n);
    KeysPart(t.scheme, t.logs[t.nodes[n][i].log].addr, key, |t.path[n]|);
    Unused(t);
  }

  lemma Unused(t: Tree)
    requires TreeOk(t)
    ensures t.used + 1 !in t.logs && t.used + 1 !in t.nodes && t.used + 1 !in t.path && t.used + 1 != TOP
  {
  }

  // ----- an insertion, step by step

  ghost predicate Searching(t0: Tree, t: Tree, key: Key, n: nat, shift: nat, keys: set<Key>) {
    && t.scheme == t0.scheme && TreeOk(t) && t.used <= t.end == t0.end && t.content == t0.content && IsKey(key) && key !in t.content && key in keys
    && n in t.nodes && n in t.path && |t.nodes[n]| == ARITY && NodeOk(t, n) && Passes(t, key, n) && shift == |t.path[n]| < DEPTH_MAX
    && t0.used <= t.used <= t0.used + NODE_SIZE * shift && (Tight(t0, keys) ==> Tight(t, keys))
  }

  ghost predicate Inserted(t0: Tree, t: Tree, key: Key, val: int, keys: set<Key>) {
    t.scheme == t0.scheme && TreeOk(t) && t.used <= t.end == t0.end && t.content == t0.content[key := val] && (Tight(t0, keys) ==> Tight(t, keys))
  }

  ghost predicate Refused(t0: Tree, t: Tree, extra: nat, wanted: Tree, keys: set<Key>) {
    && t.scheme == t0.scheme && TreeOk(t) && t.used <= t.end == t0.end && t.content == t0.content && t0.used <= t.used && t.end < t.used + extra <= t0.used + NEED
    && wanted.scheme == t0.scheme && TreeOk(wanted) && wanted.used == t.used + extra && (Tight(t0, keys) ==> Tight(t, keys) && Tight(wanted, keys))
  }

  lemma SearchStarts(t: Tree, key: Key, keys: set<Key>)
    requires TreeOk(t) && t.used <= t.end && IsKey(key) && key !in t.content && key in keys
    ensures Searching(t, t, key, TOP, 0, keys)
  {
    EveryNode(t, TOP);
    assert Digits(t.scheme, key, 0) == [];
  }

  lemma SearchFinds(t0: Tree, t: Tree, key: Key, n: nat, keys: set<Key>)
    requires TreeOk(t) && n in t.nodes && n in t.path && |t.nodes[n]| == ARITY && key !in t.content
    ensures SlotFor(t, key, n).Item? ==> SlotFor(t, key, n).log in t.logs && (t.logs[SlotFor(t, key, n).log].addr == key ==> key == NO_KEY)
  {
    if SlotFor(t, key, n).Item? { ItemIsStored(t, n, Digit(t.scheme, key, |t.path[n]|)); }
  }

  lemma SearchDown(t0: Tree, t: Tree, key: Key, n: nat, shift: nat, keys: set<Key>)
    requires Searching(t0, t, key, n, shift, keys) && SlotFor(t, key, n).Down?
    ensures Searching(t0, t, key, SlotFor(t, key, n).node, shift + 1, keys)
  {
    Descend(t, n, key);
  }

  lemma SearchReuses(t0: Tree, t: Tree, key: Key, val: int, n: nat, shift: nat, keys: set<Key>)
    requires Searching(t0, t, key, n, shift, keys) && SlotFor(t, key, n).Item?
    requires SlotFor(t, key, n).log in t.logs && t.logs[SlotFor(t, key, n).log].addr == NO_KEY
    ensures Inserted(t0, Reuse(t, SlotFor(t, key, n).log, key, val), key, val, keys)
  {
    var w := SlotFor(t, key, n).log;
    ReuseTight(t, w, key, val, keys);
    ReuseOk(t, n, w, key, val);
  }

  lemma SplitsWell(t0: Tree, t: Tree, key: Key, n: nat, shift: nat, keys: set<Key>)
    requires Searching(t0, t, key, n, shift, keys) && SlotFor(t, key, n).Item?
    requires SlotFor(t, key, n).log in t.logs && t.logs[SlotFor(t, key, n).log].addr != NO_KEY
    ensures var i := Digit(t.scheme, key, shift);
      && CanSplit(t, n, i) && TreeOk(Split(t, n, i)) && Passes(Split(t, n, i), key, t.used + 1)
      && (Tight(t0, keys) ==> Tight(Split(t, n, i), keys)) && shift + 1 < DEPTH_MAX
  {
    var i := Digit(t.scheme, key, shift);
    SearchFinds(t0, t, key, n, keys);
    Collision(t, n, key);
    SplitTight(t, n, i, key, keys);
    SplitOk(t, n, i);
  }

  lemma NodeThere(t: Tree, n: nat)
    requires TreeOk(t) && n in t.nodes
    ensures n in t.path && |t.nodes[n]| == ARITY && NodeOk(t, n)
  {
    EveryNode(t, n);
  }

  lemma SearchSplits(t0: Tree, t: Tree, key: Key, n: nat, shift: nat, keys: set<Key>)
    requires Searching(t0, t, key, n, shift, keys) && SlotFor(t, key, n).Item? && t.used + NODE_SIZE <= t.end
    requires SlotFor(t, key, n).log in t.logs && t.logs[SlotFor(t, key, n).log].addr != NO_KEY
    ensures shift + 1 < DEPTH_MAX && Searching(t0, Split(t, n, Digit(t.scheme, key, shift)), key, t.used + 1, shift + 1, keys)
  {
    hide TreeOk;
    SplitsWell(t0, t, key, n, shift, keys);
    NodeThere(Split(t, n, Digit(t.scheme, key, shift)), t.used + 1);
  }

  lemma NoNode(t0: Tree, t: Tree, key: Key, n: nat, shift: nat, keys: set<Key>)
    requires Searching(t0, t, key, n, shift, keys) && SlotFor(t, key, n).Item? && t.used + NODE_SIZE > t.end
    requires SlotFor(t, key, n).log in t.logs && t.logs[SlotFor(t, key, n).log].addr != NO_KEY
    ensures Refused(t0, t, NODE_SIZE, Split(t, n, Digit(t.scheme, key, shift)), keys)
  {
    SplitsWell(t0, t, key, n, shift, keys);
  }

  lemma AddsWell(t0: Tree, t: Tree, key: Key, val: int, n: nat, shift: nat, keys: set<Key>)
    requires Searching(t0, t, key, n, shift, keys) && SlotFor(t, key, n).Null?
    ensures TreeOk(AddItem(t, n, key, val)) && (Tight(t0, keys) ==> Tight(AddItem(t, n, key, val), keys))
  {
    Unused(t);
    AddTight(t, n, key, val, keys);
    AddItemOk(t, n, key, val);
  }

  lemma NoItem(t0: Tree, t: Tree, key: Key, val: int, n: nat, shift: nat, keys: set<Key>)
    requires Searching(t0, t, key, n, shift, keys) && SlotFor(t, key, n).Null? && t.used + LOG_SIZE > t.end
    ensures Refused(t0, t, LOG_SIZE, AddItem(t, n, key, val), keys)
  {
    AddsWell(t0, t, key, val, n, shift, keys);
  }

  lemma SearchAdds(t0: Tree, t: Tree, key: Key, val: int, n: nat, shift: nat, keys: set<Key>)
    requires Searching(t0, t, key, n, shift, keys) && SlotFor(t, key, n).Null? && t.used + LOG_SIZE <= t.end
    ensures Inserted(t0, AddItem(t, n, key, val), key, val, keys)
  {
    AddsWell(t0, t, key, val, n, shift, keys);
  }

  // ----- rebuilding

  /** newalloc in _tree_grow: `(alloc + extra + (alloc >> 2) + 31) & ~15`. */
  function NewAlloc(alloc: nat, extra: nat): nat {
    (alloc + extra + alloc / 4 + 31) / 16 * 16
  }

  lemma NewAllocGrows(alloc: nat, extra: nat)
    ensures NewAlloc(alloc, extra) >= alloc + extra + alloc / 4 + 16
  {
  }

  /** Of the items, the first k are copied, and nothing else is. */
  ghost predicate Copied(copy: map<Key, int>, items: seq<Log>, k: nat) {
    && (forall key: Key :: key in copy ==> Log(key, copy[key]) in items)
    && (forall j: nat :: j < |items| ==> (j < k <==> items[j].addr in copy))
  }

  lemma ItemOf(u: Tree, k: nat)
    requires TreeOk(u) && k < |Items(u)|
    ensures var g := Items(u)[k]; IsKey(g.addr) && g.addr in u.content && u.content[g.addr] == g.val
    ensures forall j: nat :: j < |Items(u)| && j != k ==> Items(u)[j].addr != Items(u)[k].addr
  {
    ItemsAre(u);
    assert Items(u)[k] in Items(u);
    forall j: nat | j < |Items(u)| && j != k ensures Items(u)[j].addr != Items(u)[k].addr {
      Irreflexive(u.scheme, Items(u)[k].addr);
    }
  }

  lemma CopyStep(copy: map<Key, int>, items: seq<Log>, k: nat)
    requires k < |items| && Copied(copy, items, k)
    requires forall j: nat :: j < |items| && j != k ==> items[j].addr != items[k].addr
    ensures Copied(copy[items[k].addr := items[k].val], items, k + 1)
  {
  }

  lemma CopyDone(copy: map<Key, int>, u: Tree)
    requires TreeOk(u) && Copied(copy, Items(u), |Items(u)|)
    ensures copy == u.content
  {
    ItemsAre(u);
    forall key: Key | key in u.content ensures key in copy {
      KeysAreKeys(u, key);
      InItems(copy, Items(u), Log(key, u.content[key]));
    }
    forall key: Key | key in copy ensures key in u.content && copy[key] == u.content[key] { assert Log(key, copy[key]) in Items(u); }
  }

  lemma InItems(copy: map<Key, int>, items: seq<Log>, g: Log)
    requires Copied(copy, items, |items|) && g in items
    ensures g.addr in copy
  {
    var j: nat :| j < |items| && items[j] == g;
  }

  /** The new tree of _tree_grow never grows itself. */
  lemma NotRefused(t0: Tree, t: Tree, extra: nat, wanted: Tree, u: Tree)
    requires t0.scheme == u.scheme && TreeOk(u) && Tight(t0, u.content.Keys) && u.used <= t0.end
    ensures !Refused(t0, t, extra, wanted, u.content.Keys)
  {
    if Refused(t0, t, extra, wanted, u.content.Keys) { NeverLarger(wanted, u); }
  }

  /** Retrying: the room that is still missing, until one insertion surely fits. */
  function Missing(used: nat, end: nat): nat {
    if end - used >= NEED then 0 else if end >= 4 * NEED then 1 else 1 + (4 * NEED - end)
  }

  lemma MissingLess(used: nat, end: nat, used': nat, end': nat, extra: nat)
    requires used' <= end && end < used + NEED && end' == NewAlloc(end, extra)
    ensures Missing(used', end') < Missing(used, end)
  {
    NewAllocGrows(end, extra);
  }

  class TreeS {
    const scheme: Scheme
    var nodes: map<nat, seq<Slot>>
    var logs: map<nat, Log>
    var used: nat
    var end: nat
    ghost var path: map<nat, seq<nat>>
    ghost var place: map<nat, (nat, nat)>
    ghost var content: map<Key, int>

    ghost function View(): Tree
      reads this
    {
      Tree(scheme, nodes, logs, used, end, path, place, content)
    }

    ghost predicate Valid()
      reads this
    {
      TreeOk(View()) && used <= end
    }

    /** tree_create (space 0), or the new tree of _tree_grow. */
    constructor (sch: Scheme, space: nat)
      ensures scheme == sch && Valid() && content == map[] && used == 0 && end == space
      ensures forall keys: set<Key> :: Tight(View(), keys)
    {
      scheme := sch;
      nodes := map[TOP := seq(ARITY, _ => Null)];
      logs, used, end := map[], 0, space;
      path, place, content := map[TOP := []], map[], map[];
      new;
      assert nodes[TOP] == Empty(sch, space).nodes[TOP];
      assert View() == Empty(sch, space);
      EmptyOk(sch, space);
    }

    /** TREE_FIND and _tree_find. */
    method Find(key: Key) returns (r: Option<nat>)
      requires Valid() && IsKey(key)
      ensures r.Some? <==> key in content
      ensures r.Some? ==> r.value in logs && logs[r.value] == Log(key, content[key]) && Placed(View(), r.value)
    {
      ghost var t := View();
      assert NodeOk(t, TOP);
      var n, shift := TOP, 0;
      assert Digits(scheme, key, 0) == [];
      while nodes[n][Digit(scheme, key, shift)].Down?
        invariant n in nodes && n in path && NodeOk(t, n) && Passes(t, key, n) && shift == |path[n]|
        decreases DEPTH_MAX - shift
      {
        assert SlotOk(t, n, Digit(scheme, key, shift));
        Descend(t, n, key);
        n := nodes[n][Digit(scheme, key, shift)].node;
        shift := shift + 1;
      }
      var entry := nodes[n][Digit(scheme, key, shift)];
      assert entry == SlotFor(t, key, n);
      if key in content { IsThere(t, n, key); }
      if entry.Null? { return None; }
      ItemIsStored(t, n, Digit(scheme, key, shift));
      if logs[entry.log].addr != key { return None; }
      assert SlotOk(t, n, Digit(scheme, key, shift));
      r := Some(entry.log);
    }

    /** TREE_LOOP_FORWARD, with its stack of half-visited levels. */
    method Loop() returns (items: seq<Log>)
      requires Valid()
      ensures items == Items(View())
    {
      ghost var t := View();
      items := [];
      var stack: seq<(nat, nat)>, n: nat, next: nat := [], TOP, 0;
      LoopStarts(t);
      while true
        invariant LoopOk(t, items, stack, n, next)
        decreases Steps(t, n, next) + RestSteps(t, stack)
      {
        if next == ARITY {
          if stack == [] { break; }
          LoopPops(t, items, stack, n);
          n, next := stack[|stack| - 1].0, stack[|stack| - 1].1;
          stack := stack[..|stack| - 1];
          continue;
        }
        OneSlot(t, n, next);
        var entry := nodes[n][next];
        if entry.Down? { LoopEnters(t, items, stack, n, next); } else { LoopMeets(t, items, stack, n, next); }
        next := next + 1;
        match entry
        case Null =>
        case Down(m) =>
          stack := stack + [(n, next)];
          n, next := m, 0;
        case Item(w) =>
          if logs[w].addr != NO_KEY { items := items + [logs[w]]; }
      }
    }

    method NewItem(n: nat, shift: nat, key: Key, val: int)
      requires n in nodes && n in path && |nodes[n]| == ARITY && shift == |path[n]|
      modifies this
      ensures View() == AddItem(old(View()), n, key, val)
    {
      var i, wlog := Digit(scheme, key, shift), used + 1;
      used := used + LOG_SIZE;
      logs := logs[wlog := Log(key, val)];
      nodes := nodes[n := nodes[n][i := Item(wlog)]];
      place, content := place[wlog := (n, i)], content[key := val];
    }

    method NewNode(n: nat, i: nat, shift: nat, wlog: nat) returns (node: nat)
      requires n in nodes && n in path && i < |nodes[n]| && nodes[n][i] == Item(wlog) && wlog in logs && shift == |path[n]| + 1
      modifies this
      ensures View() == Split(old(View()), n, i) && node == old(used) + 1
    {
      var j := Digit(scheme, logs[wlog].addr, shift);
      node := used + 1;
      used := used + NODE_SIZE;
      nodes := nodes[n := nodes[n][i := Down(node)]][node := seq(ARITY, k => if k == j then Item(wlog) else Null)];
      path, place := path[node := path[n] + [i]], place[wlog := (node, j)];
      assert nodes[node] == Split(old(View()), n, i).nodes[node];
    }

    method ReuseItem(wlog: nat, key: Key, val: int)
      modifies this
      ensures View() == Reuse(old(View()), wlog, key, val)
    {
      logs := logs[wlog := Log(key, val)];
      content := content[key := val];
    }

    /** A collision in tree_insert: the item there moves to a new node. */
    method Deeper(ghost t0: Tree, key: Key, n: nat, shift: nat, wlog: nat, ghost keys: set<Key>) returns (node: nat)
      requires n in nodes && n in path && |nodes[n]| == ARITY && shift == |path[n]|
      requires nodes[n][Digit(scheme, key, shift)] == Item(wlog) && wlog in logs
      requires Searching(t0, Split(View(), n, Digit(scheme, key, shift)), key, used + 1, shift + 1, keys)
      modifies this
      ensures Searching(t0, View(), key, node, shift + 1, keys)
    {
      hide TreeOk;
      node := NewNode(n, Digit(scheme, key, shift), shift + 1, wlog);
    }

    /** tree_insert up to the point where the buffer is full: then `extra` bytes
        could not be had, and `wanted` is the tree that they were for. */
    method Attempt(key: Key, val: int, ghost keys: set<Key>) returns (ok: bool, extra: nat, ghost wanted: Tree)
      requires Valid() && IsKey(key) && key !in content && key in keys
      modifies this
      ensures ok ==> Inserted(old(View()), View(), key, val, keys)
      ensures !ok ==> Refused(old(View()), View(), extra, wanted, keys)
    {
      hide TreeOk;
      var n: nat, shift: nat := TOP, 0;
      ghost var t0 := View();
      SearchStarts(t0, key, keys);
      while true
        invariant Searching(t0, View(), key, n, shift, keys)
        decreases DEPTH_MAX - shift
      {
        assert shift < DEPTH_MAX;
        var i := Digit(scheme, key, shift);
        var entry := nodes[n][i];
        if entry.Null? { break; }
        SearchFinds(t0, View(), key, n, keys);
        if entry.Down? {
          SearchDown(t0, View(), key, n, shift, keys);
          n, shift := entry.node, shift + 1;
          continue;
        }
        var wlog := entry.log;
        if logs[wlog].addr == NO_KEY {
          SearchReuses(t0, View(), key, val, n, shift, keys);
          ReuseItem(wlog, key, val);
          return true, 0, t0;
        }
        assert logs[wlog].addr != key;
        if used + NODE_SIZE > end {
          NoNode(t0, View(), key, n, shift, keys);
          return false, NODE_SIZE, Split(View(), n, i);
        }
        SearchSplits(t0, View(), key, n, shift, keys);
        n := Deeper(t0, key, n, shift, wlog, keys);
        shift := shift + 1;
      }
      if used + LOG_SIZE > end {
        NoItem(t0, View(), key, val, n, shift, keys);
        return false, LOG_SIZE, AddItem(View(), n, key, val);
      }
      SearchAdds(t0, View(), key, val, n, shift, keys);
      NewItem(n, shift, key, val);
      return true, 0, t0;
    }

    /** In the rebuilt tree, the first k items of u. */
    ghost predicate Copying(u: Tree, items: seq<Log>, k: nat)
      reads this
    {
      Valid() && Copied(content, items, k) && Tight(View(), u.content.Keys)
    }

    /** tree_insert where the attempt cannot be refused: what the tree u has room
        for, this tree has room for. */
    method InsertCopy(items: seq<Log>, k: nat, ghost u: Tree)
      requires k < |items| && IsKey(items[k].addr) && items[k].addr in u.content && u.scheme == scheme && TreeOk(u) && u.used <= end && Copying(u, items, k)
      requires forall j: nat :: j < |items| && j != k ==> items[j].addr != items[k].addr
      modifies this
      ensures Copying(u, items, k + 1) && end == old(end)
    {
      CopyStep(content, items, k);
      var ok, more, wanted := Attempt(items[k].addr, items[k].val, u.content.Keys);
      NotRefused(old(View()), View(), more, wanted, u);
      assert ok;
    }

    /** The loop of _tree_grow: inserting in the new tree succeeds at the first attempt. */
    method CopyTo(newtree: TreeS)
      requires Valid() && newtree != this && newtree.scheme == scheme && newtree.Valid() && newtree.content == map[] && Tight(newtree.View(), content.Keys) && used <= newtree.end
      modifies newtree
      ensures newtree.Valid() && newtree.content == content && newtree.end == old(newtree.end) && Tight(newtree.View(), content.Keys)
    {
      hide TreeOk;
      ghost var u := View();
      var items := Loop();
      for k := 0 to |items|
        invariant View() == u && newtree.Copying(u, items, k) && newtree.end == old(newtree.end)
      {
        ItemOf(u, k);
        newtree.InsertCopy(items, k, u);
      }
      CopyDone(newtree.content, u);
    }

    /** _tree_grow: the items move to a new tree with a larger buffer. */
    method Grow(extra: nat)
      requires Valid()
      modifies this
      ensures Valid() && content == old(content) && used <= old(used) && end == NewAlloc(old(end), extra)
      ensures Tight(View(), content.Keys)
    {
      NewAllocGrows(end, extra);
      var newtree := new TreeS(scheme, NewAlloc(end, extra));
      CopyTo(newtree);
      NeverLarger(newtree.View(), View());
      Become(newtree);
    }

    /** `*tree = newtree` */
    method Become(other: TreeS)
      requires other.scheme == scheme
      modifies this
      ensures View() == old(other.View())
    {
      nodes, logs, used, end := other.nodes, other.logs, other.used, other.end;
      path, place, content := other.path, other.place, other.content;
    }

    /** What each growth in tree_insert is for. */
    method MakeRoom(extra: nat, ghost keys: set<Key>)
      requires Valid() && end < used + NEED
      modifies this
      ensures Valid() && content == old(content) && Missing(used, end) < old(Missing(used, end))
      ensures content.Keys <= keys ==> Tight(View(), keys)
    {
      Grow(extra);
      MissingLess(old(used), old(end), used, end, extra);
      if content.Keys <= keys { WiderTight(View(), content.Keys, keys); }
    }

    /** tree_insert: retried after each growth until it fits. */
    method Insert(key: Key, val: int, ghost keys: set<Key>)
      requires Valid() && IsKey(key) && key !in content && key in keys
      modifies this
      ensures Valid() && content == old(content)[key := val]
      ensures old(Tight(View(), keys)) ==> Tight(View(), keys)
    {
      hide TreeOk;
      var ok, extra, wanted := Attempt(key, val, keys);
      while !ok
        invariant Valid() && content == if ok then old(content)[key := val] else old(content)
        invariant !ok ==> end < used + NEED
        invariant old(Tight(View(), keys)) ==> Tight(View(), keys)
        decreases !ok, Missing(used, end)
      {
        MakeRoom(extra, keys);
        ok, extra, wanted := Attempt(key, val, keys);
      }
    }

    method Erase(entry: nat, key: Key)
      requires entry in logs && logs[entry].addr == key
      modifies this
      ensures View() == Delete(old(View()), entry)
    {
      logs := logs[entry := logs[entry].(addr := NO_KEY)];
      content := content - {key};
    }

    /** tree_delete_item */
    method DeleteItem(key: Key) returns (r: bool)
      requires Valid() && IsKey(key)
      modifies this
      ensures Valid() && r == (key in old(content)) && content == old(content) - {key}
      ensures used == old(used) && end == old(end)
    {
      var entry := Find(key);
      if entry.None? { return false; }
      ghost var t' := Delete(View(), entry.value);
      assert TreeOk(t') by { DeleteOk(View(), entry.value); }
      Erase(entry.value, key);
      assert View() == t';
      r := true;
    }

    /** _tree_compress: starts with no buffer at all. */
    method Compress()
      requires Valid()
      modifies this
      ensures Valid() && content == old(content) && used <= old(used) && Tight(View(), content.Keys)
    {
      hide TreeOk;
      ghost var u := View();
      var copy := new TreeS(scheme, 0);
      var items := Loop();
      for k := 0 to |items|
        invariant View() == u && copy.Valid() && Copied(copy.content, items, k)
        invariant Tight(copy.View(), u.content.Keys)
      {
        ItemOf(u, k);
        CopyStep(copy.content, items, k);
        copy.Insert(items[k].addr, items[k].val, u.content.Keys);
      }
      CopyDone(copy.content, u);
      NeverLarger(copy.View(), u);
      Become(copy);
    }
  }
}
