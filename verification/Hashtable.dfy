/** hashtable.c: tables with open addressing that are replaced by bigger ones
    when `resize_counter` runs out of room.  Entries are never moved inside a
    table and never removed from it. */
module Hashtable {
  import opened Wrappers
  import opened Probing

  const INITIAL_HASHTABLE_SIZE: nat := 8

  datatype Entry = Entry(id: nat, key: nat)

  type Items = seq<Option<Entry>>

  // ----- one table

  ghost predicate IsSize(n: nat) { exists k: nat :: Pow2(k) == n }

  ghost predicate HasFree(items: Items) { exists s :: 0 <= s < |items| && items[s].None? }

  /** Looking for the key, the first n slots hold other entries. */
  ghost predicate Probed(items: Items, key: nat, n: nat)
    requires |items| > 0
  {
    forall m: nat {:trigger Slot(key, m, |items|)} :: m < n ==>
      items[Slot(key, m, |items|)].Some? && items[Slot(key, m, |items|)].value.key != key
  }

  /** Every entry sits where a search for it comes first. */
  ghost predicate Placed(items: Items, s: nat, n: nat)
    requires s < |items|
  {
    && items[s].Some? && items[s].value.key < KEYS
    && Slot(items[s].value.key, n, |items|) == s && Probed(items, items[s].value.key, n)
  }

  ghost predicate TableOk(items: Items) {
    IsSize(|items|) && |items| > 0 && forall s :: 0 <= s < |items| && items[s].Some? ==> exists n: nat :: Placed(items, s, n)
  }

  function Count(items: Items): (c: nat)
    ensures c <= |items|
  {
    if items == [] then 0 else Count(items[..|items| - 1]) + if items[|items| - 1].Some? then 1 else 0
  }

  ghost function Entries(items: Items): set<Entry> {
    set s | 0 <= s < |items| && items[s].Some? :: items[s].value
  }

  ghost predicate HasKey(items: Items, key: nat) {
    exists e :: e in Entries(items) && e.key == key
  }

  /** What resize_counter says: 6 less for every entry. */
  ghost predicate Room(items: Items, counter: int) {
    6 * Count(items) + counter == 4 * |items| + 1 && counter >= 1
  }

  lemma {:induction false} CountUpdate(items: Items, s: nat, e: Entry)
    requires s < |items| && items[s].None?
    ensures Count(items[s := Some(e)]) == Count(items) + 1
  {
    var n := |items| - 1;
    if s == n {
      assert items[s := Some(e)][..n] == items[..n];
    } else {
      assert items[s := Some(e)][..n] == items[..n][s := Some(e)];
      CountUpdate(items[..n], s, e);
    }
  }

  lemma {:induction false} NotFull(items: Items)
    requires Count(items) < |items|
    ensures HasFree(items)
  {
    var n := |items| - 1;
    if items[n].Some? {
      NotFull(items[..n]);
      var s :| 0 <= s < n && items[..n][s].None?;
      assert items[s].None?;
    }
  }

  /** A counter that is still positive leaves a free slot. */
  lemma RoomIsFree(items: Items, counter: int)
    requires Room(items, counter) && |items| > 0
    ensures HasFree(items) && counter % 2 == 1
  {
    NotFull(items);
  }

  /** With a free slot, every search ends. */
  lemma SearchEnds(items: Items, key: nat, n: nat)
    requires |items| > 0 && IsSize(|items|) && HasFree(items) && key < KEYS && Probed(items, key, n)
    ensures n < PERTURB_STEPS + |items|
  {
    var k: nat :| Pow2(k) == |items|;
    var s :| 0 <= s < |items| && items[s].None?;
    var m := EverySlotProbed(key, k, s);
    assert items[Slot(key, m, |items|)].None?;
  }

  /** Where the search for a key ends, from step n on. */
  ghost function Stop(items: Items, key: nat, n: nat): (r: nat)
    requires |items| > 0 && IsSize(|items|) && HasFree(items) && key < KEYS && Probed(items, key, n)
    ensures Probed(items, key, r)
    ensures items[Slot(key, r, |items|)].None? || items[Slot(key, r, |items|)].value.key == key
    decreases PERTURB_STEPS + |items| - n
  {
    SearchEnds(items, key, n);
    var at := items[Slot(key, n, |items|)];
    if at.None? || at.value.key == key then n else Stop(items, key, n + 1)
  }

  ghost predicate StopsAt(items: Items, key: nat, n: nat)
    requires |items| > 0
  {
    && Probed(items, key, n)
    && (items[Slot(key, n, |items|)].None? || items[Slot(key, n, |items|)].value.key == key)
  }

  lemma SearchesAgree(items: Items, key: nat, n: nat, m: nat)
    requires |items| > 0 && StopsAt(items, key, n) && StopsAt(items, key, m)
    ensures n == m
  {
  }

  /** There is at most one entry for a key. */
  lemma OneEntry(items: Items, s: nat, t: nat)
    requires TableOk(items) && s < |items| && t < |items| && items[s].Some? && items[t].Some?
    requires items[s].value.key == items[t].value.key
    ensures s == t
  {
    var n: nat :| Placed(items, s, n);
    var m: nat :| Placed(items, t, m);
    SearchesAgree(items, items[s].value.key, n, m);
  }

  lemma SameKeySameEntry(items: Items, e: Entry, f: Entry)
    requires TableOk(items) && e in Entries(items) && f in Entries(items) && e.key == f.key
    ensures e == f
  {
    var s :| 0 <= s < |items| && items[s] == Some(e);
    var t :| 0 <= t < |items| && items[t] == Some(f);
    OneEntry(items, s, t);
  }

  /** A search that comes to an empty slot proves that the key is absent. */
  lemma EmptyMeansAbsent(items: Items, key: nat, n: nat)
    requires TableOk(items) && Probed(items, key, n) && items[Slot(key, n, |items|)].None?
    ensures !HasKey(items, key)
  {
    forall s | 0 <= s < |items| && items[s].Some? ensures items[s].value.key != key {
      var m: nat :| Placed(items, s, m);
      NotHere(items, key, n, s, m);
    }
  }

  lemma NotHere(items: Items, key: nat, n: nat, s: nat, m: nat)
    requires |items| > 0 && Probed(items, key, n) && items[Slot(key, n, |items|)].None?
    requires s < |items| && Placed(items, s, m)
    ensures items[s].value.key != key
  {
    if items[s].value.key == key {
      SearchesAgree(items, key, n, m);
      assert false;
    }
  }

  /** Filling the empty slot at the end of a search keeps every entry findable. */
  lemma FillKeeps(items: Items, e: Entry, n: nat)
    requires TableOk(items) && e.key < KEYS && Probed(items, e.key, n) && items[Slot(e.key, n, |items|)].None?
    ensures var items' := items[Slot(e.key, n, |items|) := Some(e)];
      TableOk(items') && Entries(items') == Entries(items) + {e} && Count(items') == Count(items) + 1
  {
    var s0 := Slot(e.key, n, |items|);
    var items' := items[s0 := Some(e)];
    CountUpdate(items, s0, e);
    forall s | 0 <= s < |items'| && items'[s].Some? ensures exists m: nat :: Placed(items', s, m) {
      if s == s0 {
        assert Placed(items', s, n);
      } else {
        var m: nat :| Placed(items, s, m);
        assert Placed(items', s, m);
      }
    }
    FillEntries(items, s0, e);
  }

  lemma FillEntries(items: Items, s0: nat, e: Entry)
    requires s0 < |items| && items[s0].None?
    ensures Entries(items[s0 := Some(e)]) == Entries(items) + {e}
  {
    var items' := items[s0 := Some(e)];
    forall f | f in Entries(items) ensures f in Entries(items') {
      var s :| 0 <= s < |items| && items[s] == Some(f);
      assert items'[s] == Some(f);
    }
    assert items'[s0] == Some(e);
  }

  // ----- new tables

  lemma EmptyTable(items: Items)
    requires IsSize(|items|) && |items| > 0 && forall s :: 0 <= s < |items| ==> items[s].None?
    ensures TableOk(items) && Entries(items) == {} && Count(items) == 0
  {
    CountNone(items);
  }

  lemma {:induction false} CountNone(items: Items)
    requires forall s :: 0 <= s < |items| ==> items[s].None?
    ensures Count(items) == 0
  {
    if items != [] { CountNone(items[..|items| - 1]); }
  }

  lemma EntriesAppend(items: Items, x: Option<Entry>)
    ensures Entries(items + [x]) == Entries(items) + if x.Some? then {x.value} else {}
  {
    var items' := items + [x];
    forall e | e in Entries(items) ensures e in Entries(items') {
      var s :| 0 <= s < |items| && items[s] == Some(e);
      assert items'[s] == Some(e);
    }
    assert items'[|items|] == x;
  }

  lemma {:induction false} CountPrefix(items: Items, n: nat)
    requires n <= |items|
    ensures Count(items[..n]) <= Count(items)
  {
    var last := |items| - 1;
    if n < |items| {
      CountPrefix(items[..last], n);
      assert items[..last][..n] == items[..n];
    } else {
      assert items[..n] == items;
    }
  }

  /** The entries of a table come one by one, each with a new key. */
  lemma NewHere(items: Items, j: nat, done: Items)
    requires TableOk(items) && j < |items| && items[j].Some? && Entries(done) <= Entries(items[..j])
    ensures !HasKey(done, items[j].value.key) && items[j].value.key < KEYS
  {
    var n: nat :| Placed(items, j, n);
    forall e | e in Entries(done) ensures e.key != items[j].value.key {
      var s :| 0 <= s < j && items[..j][s] == Some(e);
      assert items[s] == Some(e);
      if e.key == items[j].value.key { OneEntry(items, s, j); }
    }
  }

  /** Putting a new entry where a search for it ends. */
  ghost function Insert(items: Items, e: Entry): (r: Items)
    requires TableOk(items) && HasFree(items) && e.key < KEYS && !HasKey(items, e.key)
    ensures |r| == |items| && TableOk(r) && Entries(r) == Entries(items) + {e} && Count(r) == Count(items) + 1
  {
    var n := Stop(items, e.key, 0);
    StopsEmpty(items, e.key, n);
    FillKeeps(items, e, n);
    items[Slot(e.key, n, |items|) := Some(e)]
  }

  lemma StopsEmpty(items: Items, key: nat, n: nat)
    requires |items| > 0 && StopsAt(items, key, n) && !HasKey(items, key)
    ensures items[Slot(key, n, |items|)].None?
  {
    if items[Slot(key, n, |items|)].Some? { KeyElsewhere(items, key, Slot(key, n, |items|)); }
  }

  lemma KeyElsewhere(items: Items, key: nat, i: nat)
    requires i < |items| && items[i].Some? && !HasKey(items, key)
    ensures items[i].value.key != key
  {
    assert items[i].value in Entries(items);
  }

  /** A table of the given size with the first j slots of an old one copied, but
      for the removable entries. */
  ghost function Rehashed(items: Items, j: nat, size: nat, removable: set<Entry>): (r: Items)
    requires TableOk(items) && j <= |items| && IsSize(size) && size > 0 && 6 * Count(items) < 4 * size + 1
    ensures |r| == size && TableOk(r) && Entries(r) == Entries(items[..j]) - removable && Count(r) <= Count(items[..j])
  {
    if j == 0 then
      EmptyTable(seq(size, _ => None));
      assert Entries(items[..0]) == {};
      seq(size, _ => None)
    else
      var r := Rehashed(items, j - 1, size, removable);
      NextSlotCopied(items, j - 1, r, removable);
      if items[j - 1].Some? && items[j - 1].value !in removable then Insert(r, items[j - 1].value) else r
  }

  lemma NextSlotCopied(items: Items, j: nat, r: Items, removable: set<Entry>)
    requires TableOk(items) && j < |items| && |r| > 0 && 6 * Count(items) < 4 * |r| + 1
    requires Entries(r) == Entries(items[..j]) - removable && Count(r) <= Count(items[..j])
    ensures HasFree(r) && (items[j].Some? ==> items[j].value.key < KEYS && !HasKey(r, items[j].value.key))
    ensures Entries(items[..j + 1]) == Entries(items[..j]) + if items[j].Some? then {items[j].value} else {}
    ensures Count(items[..j + 1]) == Count(items[..j]) + (if items[j].Some? then 1 else 0) <= Count(items)
  {
    PrefixGrows(items, j);
    CountPrefix(items, j + 1);
    NotFull(r);
    if items[j].Some? { NewHere(items, j, r); }
  }

  lemma PrefixGrows(items: Items, j: nat)
    requires j < |items|
    ensures Entries(items[..j + 1]) == Entries(items[..j]) + if items[j].Some? then {items[j].value} else {}
    ensures Count(items[..j + 1]) == Count(items[..j]) + if items[j].Some? then 1 else 0
  {
    assert items[..j + 1] == items[..j] + [items[j]] && items[..j + 1][..j] == items[..j];
    EntriesAppend(items[..j], items[j]);
  }

  // ----- the tables in place

  class Table {
    const items: array<Option<Entry>>
    var counter: int   // resize_counter, while this is the last table

    ghost predicate Valid()
      reads this, items
    {
      items.Length > 0 && TableOk(items[..]) && Room(items[..], counter)
    }

    ghost function Content(): set<Entry>
      reads items
    {
      Entries(items[..])
    }

    /** init_table */
    constructor (size: nat)
      requires IsSize(size) && size > 0
      ensures Valid() && fresh(items) && items.Length == size && items[..] == seq(size, _ => None)
      ensures Content() == {} && Count(items[..]) == 0
    {
      items := new Option<Entry>[size](_ => None);
      counter := size * 4 + 1;
      new;
      EmptyTable(items[..]);
      assert items[..] == seq(size, _ => None);
    }

    /** The probe loop of stm_hashtable_lookup: stops at the entry with the key or
        at an empty slot. */
    method Find(key: nat) returns (i: nat, ghost n: nat)
      requires items.Length > 0 && IsSize(items.Length) && HasFree(items[..]) && key < KEYS
      ensures i < items.Length && i == Slot(key, n, items.Length) && StopsAt(items[..], key, n)
    {
      i, n := key % items.Length, 0;
      var perturb := key;
      while items[i].Some? && items[i].value.key != key
        invariant i < items.Length && i == Slot(key, n, items.Length) && perturb == Perturb(key, n) && Probed(items[..], key, n)
        decreases PERTURB_STEPS + items.Length - n
      {
        SearchEnds(items[..], key, n);
        i := Advance(i, perturb, items.Length);
        perturb := perturb / 32;
        n := n + 1;
      }
    }

    /** _insert_clean: it looks only for an empty slot. */
    method InsertClean(e: Entry)
      requires items.Length > 0 && TableOk(items[..]) && HasFree(items[..]) && e.key < KEYS && !HasKey(items[..], e.key)
      modifies items
      ensures items[..] == Insert(old(items[..]), e)
    {
      var i;
      ghost var n;
      i, n := FindFree(e.key);
      SearchesAgree(items[..], e.key, n, Stop(items[..], e.key, 0));
      Fill(i, e, n);
    }

    /** The copying loop of _stm_rehash_hashtable, into a new table. */
    method CopyFrom(from: array<Option<Entry>>, removable: set<Entry>)
      requires from != items && TableOk(from[..]) && items.Length > 0 && IsSize(items.Length)
      requires items[..] == seq(items.Length, _ => None) && counter == 4 * items.Length + 1
      requires 6 * Count(from[..]) < 4 * items.Length + 1
      modifies this, items
      ensures Valid() && items[..] == Rehashed(from[..], from.Length, items.Length, removable)
    {
      EmptyTable(items[..]);
      ghost var was := from[..];
      var rc := counter;
      var j := 0;
      while j < from.Length
        modifies items
        invariant j <= from.Length && from[..] == was && items[..] == Rehashed(was, j, items.Length, removable)
        invariant 6 * Count(items[..]) + rc == 4 * items.Length + 1
      {
        rc := CopySlot(from[j], rc, was, j, removable);
        j := j + 1;
      }
      assert was[..j] == was;
      counter := rc;
    }

    /** One round of it. */
    method CopySlot(slot: Option<Entry>, rc: int, ghost was: Items, ghost j: nat, removable: set<Entry>) returns (rc': int)
      requires items.Length > 0 && IsSize(items.Length) && TableOk(was) && j < |was| && slot == was[j] && 6 * Count(was) < 4 * items.Length + 1
      requires items[..] == Rehashed(was, j, items.Length, removable) && 6 * Count(items[..]) + rc == 4 * items.Length + 1
      modifies items
      ensures items[..] == Rehashed(was, j + 1, items.Length, removable) && 6 * Count(items[..]) + rc' == 4 * items.Length + 1
    {
      NextSlotCopied(was, j, items[..], removable);
      rc' := rc;
      if slot.Some? && slot.value !in removable {
        InsertClean(slot.value);
        rc' := rc - 6;
      }
    }

    method FindFree(key: nat) returns (i: nat, ghost n: nat)
      requires items.Length > 0 && IsSize(items.Length) && HasFree(items[..]) && key < KEYS && !HasKey(items[..], key)
      ensures i < items.Length && i == Slot(key, n, items.Length) && Probed(items[..], key, n) && items[i].None?
    {
      i, n := key % items.Length, 0;
      var perturb := key;
      while items[i].Some?
        invariant i < items.Length && i == Slot(key, n, items.Length) && perturb == Perturb(key, n) && Probed(items[..], key, n)
        decreases PERTURB_STEPS + items.Length - n
      {
        SearchEnds(items[..], key, n);
        KeyElsewhere(items[..], key, i);
        i := Advance(i, perturb, items.Length);
        perturb := perturb / 32;
        n := n + 1;
      }
    }

    method Fill(i: nat, e: Entry, ghost n: nat)
      requires items.Length > 0 && TableOk(items[..]) && e.key < KEYS
      requires i == Slot(e.key, n, items.Length) && items[i].None? && Probed(items[..], e.key, n)
      modifies items
      ensures items[..] == old(items[..])[i := Some(e)]
      ensures TableOk(items[..]) && Content() == old(Content()) + {e} && Count(items[..]) == old(Count(items[..])) + 1
    {
      ghost var was := items[..];
      FillKeeps(was, e, n);
      items[i] := Some(e);
      assert items[..] == was[i := Some(e)];
    }
  }

  ghost predicate HasEntry(content: set<Entry>, key: nat) {
    exists e :: e in content && e.key == key
  }

  lemma Bigger(n: nat)
    requires IsSize(n)
    ensures IsSize(n * 2) && IsSize(n * 4)
  {
    var k: nat :| Pow2(k) == n;
    assert Pow2(k + 1) == n * 2 && Pow2(k + 2) == n * 4;
  }

  lemma Doubled(a: nat, b: nat)
    requires IsSize(a) && IsSize(b) && a < b
    ensures a * 2 <= b
  {
    var j: nat :| Pow2(j) == a;
    var k: nat :| Pow2(k) == b;
    PowersAscend(j, k);
    PowersAscend(k, j);
  }

  lemma {:induction false} PowersAscend(j: nat, k: nat)
    ensures j < k ==> Pow2(j) * 2 <= Pow2(k)
    ensures j == k ==> Pow2(j) == Pow2(k)
  {
    if j + 1 < k { PowersAscend(j, k - 1); }
  }

  class Hashtable {
    var table: Table
    var additions: nat

    ghost predicate Valid()
      reads this, table, table.items
    {
      table.Valid() && table.items.Length >= INITIAL_HASHTABLE_SIZE
    }

    ghost function Content(): set<Entry>
      reads this, table, table.items
    {
      table.Content()
    }

    /** stm_hashtable_create */
    constructor ()
      ensures Valid() && fresh(table) && fresh(table.items) && Content() == {} && additions == 0
    {
      assert Pow2(3) == INITIAL_HASHTABLE_SIZE;
      table := new Table(INITIAL_HASHTABLE_SIZE);
      additions := 0;
    }

    /** _stm_rehash_hashtable: a new table with all entries but the removable
        ones. */
    method Rehash(biggerCount: nat, removable: set<Entry>)
      requires Valid() && IsSize(biggerCount) && biggerCount >= INITIAL_HASHTABLE_SIZE && 6 * Count(table.items[..]) < 4 * biggerCount + 1
      modifies this`table
      ensures Valid() && fresh(table) && fresh(table.items)
      ensures table.items[..] == Rehashed(old(table.items[..]), old(table.items.Length), biggerCount, removable)
    {
      var bigger := new Table(biggerCount);
      bigger.CopyFrom(table.items, removable);
      table := bigger;
    }

    /** stm_hashtable_lookup, without other threads: the entry of a key is always
        the same one, and is made when the key is looked up for the first time. */
    method Lookup(key: nat, newId: nat) returns (e: Entry)
      requires Valid() && key < KEYS
      modifies this, table, table.items
      ensures Valid() && e.key == key && e in Content()
      ensures HasEntry(old(Content()), key) ==> Content() == old(Content()) && additions == old(additions)
      ensures !HasEntry(old(Content()), key) ==>
        Content() == old(Content()) + {e} && e.id == newId && additions == old(additions) + 0x100
      ensures table == old(table) || (fresh(table) && fresh(table.items))
    {
      ghost var was := Content();
      while true
        invariant Valid() && Content() == was && additions == old(additions)
        invariant table == old(table) || (fresh(table) && fresh(table.items))
        decreases table.counter <= 6
      {
        RoomIsFree(table.items[..], table.counter);
        var i;
        ghost var n;
        i, n := table.Find(key);
        if table.items[i].Some? {
          assert table.items[i].value in Content();
          return table.items[i].value;
        }
        EmptyMeansAbsent(table.items[..], key, n);
        if table.counter > 6 {
          e := Entry(newId, key);
          AddEntry(i, e, n);
          return;
        }
        Grow();
      }
    }

    method AddEntry(i: nat, e: Entry, ghost n: nat)
      requires Valid() && e.key < KEYS && table.counter > 6
      requires i == Slot(e.key, n, table.items.Length) && table.items[i].None? && Probed(table.items[..], e.key, n)
      modifies this`additions, table, table.items
      ensures Valid() && Content() == old(Content()) + {e} && additions == old(additions) + 0x100
    {
      table.Fill(i, e, n);
      table.counter := table.counter - 6;
      additions := additions + 0x100;
    }

    method Grow()
      requires Valid() && table.counter <= 6
      modifies this`table
      ensures Valid() && fresh(table) && fresh(table.items) && Content() == old(Content()) && table.counter > 6
    {
      var biggerCount := table.items.Length;
      Bigger(biggerCount);
      biggerCount := if biggerCount < 50000 then biggerCount * 4 else biggerCount * 2;
      assert table.items[..table.items.Length] == table.items[..];
      Rehash(biggerCount, {});
    }

    /** _stm_compact_hashtable: after many additions, makes a new table of the
        right size without the entries that hold nothing and were not read. */
    method Compact(removable: set<Entry>)
      requires Valid()
      modifies this
      ensures Valid() && table.items.Length <= old(table.items.Length)
      ensures if old(additions) / 256 * 4 > old(table.items.Length) - 1
              then Content() == old(Content()) - removable && 0 < additions < 256
              else Content() == old(Content()) && table == old(table) && additions == old(additions)
    {
      if additions / 256 * 4 > table.items.Length - 1 {
        var segment := additions % 256;
        if segment == 0 {
          segment := 1;
        }
        additions := segment;
        var entriesTimes6 := table.items.Length * 4 + 1 - table.counter;
        var count := INITIAL_HASHTABLE_SIZE;
        assert Pow2(3) == count && entriesTimes6 == 6 * Count(table.items[..]);
        while count * 4 < entriesTimes6
          invariant Valid() && table == old(table) && Content() == old(Content()) && additions == segment
          invariant INITIAL_HASHTABLE_SIZE <= count <= table.items.Length && IsSize(count)
        {
          Doubled(count, table.items.Length);
          Bigger(count);
          count := count * 2;
        }
        assert table.items[..table.items.Length] == table.items[..];
        Rehash(count, removable);
      }
    }
  }
}
