/** The order in which the trie loops meet the items: the same in every trie,
    whatever was inserted and deleted before (c7/stm/list.h, c4/lists.h). */
module TrieOrder {
  import opened TrieKeys
  import opened Trie

  /** x comes before y: at the first digit where they differ, x has the smaller one. */
  ghost predicate Before(sch: Scheme, x: Key, y: Key) {
    exists d: nat :: d < DEPTH_MAX && DiffersFirst(sch, x, y, d) && Digit(sch, x, d) < Digit(sch, y, d)
  }

  ghost predicate DiffersFirst(sch: Scheme, x: Key, y: Key, d: nat) {
    Digits(sch, x, d) == Digits(sch, y, d) && Digit(sch, x, d) != Digit(sch, y, d)
  }

  lemma NextDigit(sch: Scheme, x: Key, d: nat)
    ensures Digits(sch, x, d + 1) == Digits(sch, x, d) + [Digit(sch, x, d)]
  {
  }

  lemma FirstDifference(sch: Scheme, x: Key, y: Key) returns (d: nat)
    requires IsKey(x) && IsKey(y) && x != y
    ensures d < DEPTH_MAX && DiffersFirst(sch, x, y, d)
  {
    hide Digit;
    DigitsDiffer(sch, x, y);
    var e: nat :| e < DEPTH_MAX && Digit(sch, x, e) != Digit(sch, y, e);
    d := 0;
    while Digit(sch, x, d) == Digit(sch, y, d)
      invariant d <= e && Digits(sch, x, d) == Digits(sch, y, d)
      decreases e - d
    {
      NextDigit(sch, x, d);
      NextDigit(sch, y, d);
      d := d + 1;
    }
  }

  lemma OneFirst(sch: Scheme, x: Key, y: Key, d: nat, e: nat)
    requires DiffersFirst(sch, x, y, d) && DiffersFirst(sch, x, y, e)
    ensures d == e
  {
    SameDigit(sch, x, y, d, e);
    SameDigit(sch, x, y, e, d);
  }

  /** Any two keys are ordered, one way only. */
  lemma Trichotomy(sch: Scheme, x: Key, y: Key)
    requires IsKey(x) && IsKey(y) && x != y
    ensures Before(sch, x, y) <==> !Before(sch, y, x)
  {
    var d := FirstDifference(sch, x, y);
    assert DiffersFirst(sch, y, x, d);
    if Before(sch, x, y) && Before(sch, y, x) {
      var a: nat :| a < DEPTH_MAX && DiffersFirst(sch, x, y, a) && Digit(sch, x, a) < Digit(sch, y, a);
      var b: nat :| b < DEPTH_MAX && DiffersFirst(sch, y, x, b) && Digit(sch, y, b) < Digit(sch, x, b);
      OneFirst(sch, x, y, a, d);
      OneFirst(sch, y, x, b, d);
      assert false;
    }
  }

  lemma Irreflexive(sch: Scheme, x: Key)
    ensures !Before(sch, x, x)
  {
  }

  lemma Transitive(sch: Scheme, x: Key, y: Key, z: Key)
    requires Before(sch, x, y) && Before(sch, y, z)
    ensures Before(sch, x, z)
  {
    var a: nat :| a < DEPTH_MAX && DiffersFirst(sch, x, y, a) && Digit(sch, x, a) < Digit(sch, y, a);
    var b: nat :| b < DEPTH_MAX && DiffersFirst(sch, y, z, b) && Digit(sch, y, b) < Digit(sch, z, b);
    var c := if a < b then a else b;
    Prefix(sch, x, y, a, c);
    Prefix(sch, y, z, b, c);
    SameDigit(sch, y, z, b, a);
    SameDigit(sch, x, y, a, b);
    assert DiffersFirst(sch, x, z, c);
  }

  lemma Prefix(sch: Scheme, x: Key, y: Key, d: nat, e: nat)
    requires Digits(sch, x, d) == Digits(sch, y, d) && e <= d
    ensures Digits(sch, x, e) == Digits(sch, y, e)
  {
    assert Digits(sch, x, e) == Digits(sch, x, d)[..e] && Digits(sch, y, e) == Digits(sch, y, d)[..e];
  }

  // ----- what a loop from slot i of node n meets

  ghost function From(t: Tree, n: nat, i: nat): seq<Log>
    requires TreeOk(t) && n in t.nodes && i <= ARITY
    decreases DEPTH_MAX - |t.path[n]|, ARITY - i
  {
    if i == ARITY then []
    else
      assert NodeOk(t, n) && SlotOk(t, n, i);
      match t.nodes[n][i]
      case Null => From(t, n, i + 1)
      case Down(m) => assert NodeOk(t, m); From(t, m, 0) + From(t, n, i + 1)
      case Item(w) => (if t.logs[w].addr == NO_KEY then [] else [t.logs[w]]) + From(t, n, i + 1)
  }

  /** The whole loop. */
  ghost function Items(t: Tree): seq<Log>
    requires TreeOk(t)
  {
    From(t, TOP, 0)
  }

  /** The item is one of the content, below slot i or a later one of node n. */
  ghost predicate Under(t: Tree, n: nat, i: nat, g: Log) {
    && g.addr in t.content && t.content[g.addr] == g.val && IsKey(g.addr)
    && n in t.path && Digits(t.scheme, g.addr, |t.path[n]|) == t.path[n] && i <= Digit(t.scheme, g.addr, |t.path[n]|)
  }

  lemma UnderSlot(t: Tree, n: nat, i: nat, m: nat, g: Log)
    requires TreeOk(t) && n in t.nodes && i < ARITY && |t.nodes[n]| == ARITY && t.nodes[n][i] == Down(m) && Under(t, m, 0, g)
    ensures Under(t, n, i, g) && Digit(t.scheme, g.addr, |t.path[n]|) == i
  {
    assert NodeOk(t, n) && SlotOk(t, n, i);
    assert Digits(t.scheme, g.addr, |t.path[n]| + 1)[..|t.path[n]|] == Digits(t.scheme, g.addr, |t.path[n]|);
    assert Digits(t.scheme, g.addr, |t.path[n]| + 1)[|t.path[n]|] == i;
  }

  lemma UnderItem(t: Tree, n: nat, i: nat, w: nat)
    requires TreeOk(t) && n in t.nodes && i < ARITY && |t.nodes[n]| == ARITY && t.nodes[n][i] == Item(w) && w in t.logs && t.logs[w].addr != NO_KEY
    ensures Under(t, n, i, t.logs[w]) && Digit(t.scheme, t.logs[w].addr, |t.path[n]|) == i
  {
    assert NodeOk(t, n) && SlotOk(t, n, i);
    var k := t.logs[w].addr;
    assert Digits(t.scheme, k, |t.path[n]| + 1)[..|t.path[n]|] == Digits(t.scheme, k, |t.path[n]|);
    assert Digits(t.scheme, k, |t.path[n]| + 1)[|t.path[n]|] == i;
  }

  lemma InSlot(t: Tree, n: nat, i: nat)
    requires TreeOk(t) && n in t.nodes && i < ARITY
    ensures n in t.path && |t.path[n]| < DEPTH_MAX && |t.nodes[n]| == ARITY
    ensures t.nodes[n][i].Down? ==>
      var m := t.nodes[n][i].node;
      m in t.nodes && m in t.path && t.path[m] == t.path[n] + [i] && |t.path[n]| + 1 < DEPTH_MAX
    ensures t.nodes[n][i].Item? ==> t.nodes[n][i].log in t.logs
  {
    assert NodeOk(t, n) && SlotOk(t, n, i);
    if t.nodes[n][i].Down? { assert NodeOk(t, t.nodes[n][i].node); }
  }

  lemma AllUnder(t: Tree, n: nat, i: nat, m: nat, s: seq<Log>)
    requires TreeOk(t) && n in t.nodes && i < ARITY && |t.nodes[n]| == ARITY && t.nodes[n][i] == Down(m)
    requires forall g :: g in s ==> Under(t, m, 0, g)
    ensures forall g :: g in s ==> Under(t, n, i, g)
  {
    forall g | g in s ensures Under(t, n, i, g) { UnderSlot(t, n, i, m, g); }
  }

  lemma {:induction false} FromUnder(t: Tree, n: nat, i: nat)
    requires TreeOk(t) && n in t.nodes && i <= ARITY
    ensures forall g :: g in From(t, n, i) ==> Under(t, n, i, g)
    decreases DEPTH_MAX - |t.path[n]|, ARITY - i
  {
    hide TreeOk;
    if i < ARITY {
      InSlot(t, n, i);
      FromUnder(t, n, i + 1);
      if t.nodes[n][i].Down? {
        FromUnder(t, t.nodes[n][i].node, 0);
        AllUnder(t, n, i, t.nodes[n][i].node, From(t, t.nodes[n][i].node, 0));
      } else if t.nodes[n][i].Item? && t.logs[t.nodes[n][i].log].addr != NO_KEY {
        UnderItem(t, n, i, t.nodes[n][i].log);
      }
    }
  }

  lemma LeadsBelow(t: Tree, n: nat, i: nat, m: nat, key: Key)
    requires n in t.path && m in t.path && t.path[m] == t.path[n] + [i]
    requires key in t.content && Under(t, n, i, Log(key, t.content[key])) && Digit(t.scheme, key, |t.path[n]|) == i
    ensures Under(t, m, 0, Log(key, t.content[key]))
  {
    assert Digits(t.scheme, key, |t.path[n]| + 1) == t.path[n] + [i];
  }

  lemma IsThere(t: Tree, n: nat, key: Key)
    requires TreeOk(t) && n in t.nodes && NodeOk(t, n) && Passes(t, key, n) && key in t.content && !SlotFor(t, key, n).Down?
    ensures SlotFor(t, key, n).Item? && SlotFor(t, key, n).log in t.logs && t.logs[SlotFor(t, key, n).log] == Log(key, t.content[key])
  {
    FoundWhereStored(t, key, n);
    ItemIsStored(t, n, Digit(t.scheme, key, |t.path[n]|));
  }

  lemma NodeIsOk(t: Tree, n: nat)
    requires TreeOk(t) && n in t.nodes
    ensures NodeOk(t, n)
  {
  }

  /** Nothing is left out. */
  lemma {:induction false} FromAll(t: Tree, n: nat, i: nat, key: Key)
    requires TreeOk(t) && n in t.nodes && i <= ARITY && key in t.content && Under(t, n, i, Log(key, t.content[key]))
    ensures Log(key, t.content[key]) in From(t, n, i)
    decreases DEPTH_MAX - |t.path[n]|, ARITY - i
  {
    hide TreeOk, Digit;
    InSlot(t, n, i);
    if Digit(t.scheme, key, |t.path[n]|) > i {
      FromAll(t, n, i + 1, key);
    } else {
      assert SlotFor(t, key, n) == t.nodes[n][i];
      if t.nodes[n][i].Down? {
        LeadsBelow(t, n, i, t.nodes[n][i].node, key);
        FromAll(t, t.nodes[n][i].node, 0, key);
      } else {
        NodeIsOk(t, n);
        IsThere(t, n, key);
      }
    }
  }

  ghost predicate Ordered(sch: Scheme, s: seq<Log>) {
    forall a, b :: 0 <= a < b < |s| ==> Before(sch, s[a].addr, s[b].addr)
  }

  lemma SlotsOrdered(t: Tree, n: nat, i: nat, g: Log, h: Log)
    requires Under(t, n, i, g) && Digit(t.scheme, g.addr, |t.path[n]|) == i && Under(t, n, i + 1, h) && |t.path[n]| < DEPTH_MAX
    ensures Before(t.scheme, g.addr, h.addr)
  {
    assert DiffersFirst(t.scheme, g.addr, h.addr, |t.path[n]|);
  }

  lemma SlotThenRest(t: Tree, n: nat, i: nat, slot: seq<Log>, rest: seq<Log>)
    requires n in t.path && |t.path[n]| < DEPTH_MAX && Ordered(t.scheme, slot) && Ordered(t.scheme, rest)
    requires forall g :: g in slot ==> Under(t, n, i, g) && Digit(t.scheme, g.addr, |t.path[n]|) == i
    requires forall h :: h in rest ==> Under(t, n, i + 1, h)
    ensures Ordered(t.scheme, slot + rest)
  {
    hide Ordered, Digit, Before;
    forall g, h | g in slot && h in rest ensures Before(t.scheme, g.addr, h.addr) { SlotsOrdered(t, n, i, g, h); }
    Joined(t.scheme, slot, rest);
  }

  lemma AllInSlot(t: Tree, n: nat, i: nat, m: nat, s: seq<Log>)
    requires TreeOk(t) && n in t.nodes && n in t.path && i < ARITY && |t.nodes[n]| == ARITY && t.nodes[n][i] == Down(m)
    requires forall g :: g in s ==> Under(t, m, 0, g)
    ensures forall g :: g in s ==> Under(t, n, i, g) && Digit(t.scheme, g.addr, |t.path[n]|) == i
  {
    hide TreeOk, Under, Digit;
    forall g | g in s ensures Under(t, n, i, g) && Digit(t.scheme, g.addr, |t.path[n]|) == i { UnderSlot(t, n, i, m, g); }
  }

  lemma {:induction false} FromOrdered(t: Tree, n: nat, i: nat)
    requires TreeOk(t) && n in t.nodes && i <= ARITY
    ensures Ordered(t.scheme, From(t, n, i))
    decreases DEPTH_MAX - |t.path[n]|, ARITY - i
  {
    hide TreeOk, Under, Digit, Before;
    if i < ARITY {
      InSlot(t, n, i);
      FromOrdered(t, n, i + 1);
      FromUnder(t, n, i + 1);
      match t.nodes[n][i]
      case Null =>
      case Down(m) =>
        FromOrdered(t, m, 0);
        FromUnder(t, m, 0);
        AllInSlot(t, n, i, m, From(t, m, 0));
        SlotThenRest(t, n, i, From(t, m, 0), From(t, n, i + 1));
      case Item(w) =>
        if t.logs[w].addr != NO_KEY {
          UnderItem(t, n, i, w);
          SlotThenRest(t, n, i, [t.logs[w]], From(t, n, i + 1));
        }
    }
  }

  lemma Joined(sch: Scheme, a: seq<Log>, b: seq<Log>)
    requires Ordered(sch, a) && Ordered(sch, b) && forall g, h :: g in a && h in b ==> Before(sch, g.addr, h.addr)
    ensures Ordered(sch, a + b)
  {
    forall i, j | 0 <= i < j < |a + b| ensures Before(sch, (a + b)[i].addr, (a + b)[j].addr) {
      if i < |a| && j >= |a| { assert a[i] in a && b[j - |a|] in b; }
    }
  }

  /** The loop meets the live items, each once, in the order of their digits. */
  lemma ItemsAre(t: Tree)
    requires TreeOk(t)
    ensures Ordered(t.scheme, Items(t))
    ensures forall g: Log :: g in Items(t) <==> (IsKey(g.addr) && g.addr in t.content && t.content[g.addr] == g.val)
  {
    FromOrdered(t, TOP, 0);
    FromUnder(t, TOP, 0);
    assert NodeOk(t, TOP);
    forall g: Log | IsKey(g.addr) && g.addr in t.content && t.content[g.addr] == g.val ensures g in Items(t) {
      assert Digits(t.scheme, g.addr, 0) == [];
      FromAll(t, TOP, 0, g.addr);
    }
  }

  lemma KeysAreKeys(t: Tree, key: Key)
    requires TreeOk(t) && key in t.content
    ensures IsKey(key)
  {
    assert Stored(t, key) && key != NO_KEY;
    var w :| w in t.logs && t.logs[w].addr == key && Placed(t, w);
    assert NodeOk(t, t.place[w].0);
    assert SlotOk(t, t.place[w].0, t.place[w].1);
  }

  lemma MetBefore(t: Tree, a: nat, b: nat)
    requires TreeOk(t) && a < |Items(t)| && b < |Items(t)|
    ensures a < b <==> Before(t.scheme, Items(t)[a].addr, Items(t)[b].addr)
  {
    hide TreeOk;
    ItemsAre(t);
    var x, y := Items(t)[a].addr, Items(t)[b].addr;
    assert Items(t)[a] in Items(t) && Items(t)[b] in Items(t);
    Irreflexive(t.scheme, x);
    if x != y { Trichotomy(t.scheme, x, y); }
  }

  /** The order does not depend on the history: two tries that hold the same two
      keys visit them in the same order. */
  lemma SameOrder(t: Tree, u: Tree, a: nat, b: nat, c: nat, d: nat)
    requires t.scheme == u.scheme && TreeOk(t) && TreeOk(u) && a < |Items(t)| && b < |Items(t)| && c < |Items(u)| && d < |Items(u)|
    requires Items(t)[a].addr == Items(u)[c].addr && Items(t)[b].addr == Items(u)[d].addr
    ensures a < b <==> c < d
  {
    MetBefore(t, a, b);
    MetBefore(u, c, d);
  }

  /** The keys of the items, in the order of the loop. */
  ghost function Keys(items: seq<Log>): (keys: seq<Key>)
    ensures |keys| == |items| && forall i :: 0 <= i < |keys| ==> keys[i] == items[i].addr
  {
    seq(|items|, i requires 0 <= i < |items| => items[i].addr)
  }

  /** The keys, each once, in the order that all loops share. */
  ghost predicate LoopOrder(sch: Scheme, order: seq<Key>, keys: set<Key>) {
    && (forall i, j :: 0 <= i < j < |order| ==> Before(sch, order[i], order[j]))
    && (forall v: Key :: v in order <==> v in keys)
  }

  /** A loop meets exactly the keys of the content, in that order. */
  lemma LoopMeetsInOrder(t: Tree)
    requires TreeOk(t)
    ensures LoopOrder(t.scheme, Keys(Items(t)), t.content.Keys)
  {
    hide TreeOk, Before, Items;
    ItemsAre(t);
    var items, keys := Items(t), Keys(Items(t));
    forall v: Key ensures v in keys <==> v in t.content {
      if v in t.content {
        KeysAreKeys(t, v);
        assert Log(v, t.content[v]) in items;
        var i: nat :| i < |items| && items[i] == Log(v, t.content[v]);
        assert keys[i] == v;
      }
      if v in keys {
        var i: nat :| i < |keys| && keys[i] == v;
        assert items[i] in items;
      }
    }
  }
}
