/**
 The account table of the rate limiter (internal/ratelimit/table.go): per shard a map and an
 intrusive doubly-linked list over the same entries, updated in place. Each shard is proved
 to keep the list value of module Lru.
 */
module RateTable {
  import opened Wrappers
  import opened CreditAccount
  import opened Lru

  /** A masked client block, a response category (or the aggregate one), and the imputed name. */
  datatype AccountKey = AccountKey(block: nat, category: nat, name: string)

  class TableEntry {
    const key: AccountKey
    var acct: Account
    var prev: TableEntry?
    var next: TableEntry?

    constructor (k: AccountKey)
      ensures key == k && acct == FRESH && prev == null && next == null
    {
      key, acct, prev, next := k, FRESH, null, null;
    }
  }

  class TableShard {
    var items: map<AccountKey, TableEntry>
    var head: TableEntry?
    var tail: TableEntry?
    var size: nat
    const cap: nat
    /** The entries in list order, most recently used first. */
    ghost var nodes: seq<TableEntry>
    /** Their keys and accounts: the value the shard represents. */
    ghost var contents: seq<Entry<AccountKey>>
    /** Every entry this shard ever made. */
    ghost var Repr: set<TableEntry>

    /** head, tail and both link directions trace out `nodes`. */
    ghost predicate Linked()
      reads this`nodes, this`head, this`tail, nodes`prev, nodes`next
    {
      && (forall i, j :: 0 <= i < j < |nodes| ==> nodes[i] != nodes[j])
      && (nodes == [] ==> head == null && tail == null)
      && (nodes != [] ==>
            && head == nodes[0] && tail == nodes[|nodes| - 1]
            && head.prev == null && tail.next == null
            && (forall i {:trigger nodes[i].prev} :: 1 <= i < |nodes| ==> nodes[i].prev == nodes[i - 1])
            && (forall i {:trigger nodes[i].next} :: 0 <= i < |nodes| - 1 ==> nodes[i].next == nodes[i + 1]))
    }

    /** The map indexes the entries of `listed`. */
    ghost predicate IndexedBy(listed: seq<TableEntry>)
      reads this`items, this`size
    {
      && size == |listed|
      && (forall i :: 0 <= i < |listed| ==> listed[i].key in items && items[listed[i].key] == listed[i])
      && (forall k :: k in items ==> items[k] in listed && items[k].key == k)
    }

    /** The map indexes exactly the listed entries, by their keys. */
    ghost predicate Indexed()
      reads this`nodes, this`items, this`size
    {
      IndexedBy(nodes)
    }

    ghost predicate Valid()
      reads this, Repr
    {
      && cap >= 1 && size <= cap
      && Owned(nodes, Repr)
      && Linked() && Indexed() && Mirrors(nodes, contents)
    }

    static ghost predicate Owned(ns: seq<TableEntry>, r: set<TableEntry>) {
      forall i :: 0 <= i < |ns| ==> ns[i] in r
    }

    static lemma OwnedMoved(ns: seq<TableEntry>, at: nat, r: set<TableEntry>)
      requires Owned(ns, r) && at < |ns|
      ensures Owned(Moved(ns, at), r)
    {
    }

    static lemma OwnedPushed(e: TableEntry, ns: seq<TableEntry>, r: set<TableEntry>)
      requires Owned(ns, r)
      ensures Owned([e] + ns, r + {e}) && Owned(ns, r + {e})
    {
    }

    static lemma OwnedCut(ns: seq<TableEntry>, r: set<TableEntry>)
      requires Owned(ns, r) && ns != []
      ensures Owned(ns[..|ns| - 1], r)
    {
    }

    /** l is what the entries ns hold. */
    static ghost predicate Mirrors(ns: seq<TableEntry>, l: seq<Entry<AccountKey>>)
      reads ns`acct
    {
      && |l| == |ns|
      && (forall i {:trigger ns[i]} :: 0 <= i < |ns| ==> l[i] == Entry(ns[i].key, ns[i].acct))
    }

    static lemma MirrorsMoved(ns: seq<TableEntry>, l: seq<Entry<AccountKey>>, at: nat)
      requires Mirrors(ns, l) && at < |ns|
      ensures Mirrors(Moved(ns, at), Moved(l, at))
    {
    }

    static lemma MirrorsCut(ns: seq<TableEntry>, l: seq<Entry<AccountKey>>)
      requires Mirrors(ns, l) && ns != []
      ensures Mirrors(ns[..|ns| - 1], l[..|l| - 1])
    {
    }

    static lemma MirrorsPushed(e: TableEntry, ns: seq<TableEntry>, l: seq<Entry<AccountKey>>)
      requires Mirrors(ns, l)
      ensures Mirrors([e] + ns, [Entry(e.key, e.acct)] + l)
    {
    }

    constructor (capacity: nat)
      requires capacity >= 1
      ensures Valid() && contents == [] && cap == capacity && Repr == {}
    {
      items, head, tail, size, cap := map[], null, null, 0, capacity;
      nodes, contents, Repr := [], [], {};
    }

    /** Inserts e at the head. */
    method PushFront(e: TableEntry)
      requires Linked() && e !in nodes
      modifies this`head, this`tail, this`nodes, nodes`prev, nodes`next, e`prev, e`next
      ensures Linked() && nodes == [e] + old(nodes)
    {
      e.prev := null;
      e.next := head;
      if head != null {
        head.prev := e;
      }
      head := e;
      if tail == null {
        tail := e;
      }
      ghost var rest := nodes;
      nodes := [e] + nodes;
      assert forall i :: 1 <= i < |nodes| ==> nodes[i] == rest[i - 1];
    }

    /** Removes e from the list without touching the map or the size. */
    method Unlink(e: TableEntry, ghost at: nat)
      requires Linked() && at < |nodes| && nodes[at] == e
      modifies this`head, this`tail, this`nodes, nodes`prev, nodes`next
      ensures Linked() && nodes == old(nodes)[..at] + old(nodes)[at + 1..]
    {
      ghost var before := nodes;
      NeighboursOf(at);
      if e.prev != null {
        e.prev.next := e.next;
      } else {
        head := e.next;
      }
      if e.next != null {
        e.next.prev := e.prev;
      } else {
        tail := e.prev;
      }
      e.prev, e.next := null, null;
      nodes := nodes[..at] + nodes[at + 1..];
      BypassedIsLinked(before, at);
    }

    /** Every entry of `before` but the one at `at` links past it. */
    ghost predicate Bypassed(before: seq<TableEntry>, at: nat)
      reads before`prev, before`next
      requires at < |before|
    {
      && (forall i {:trigger before[i].prev} :: 0 <= i < |before| && i != at ==>
            before[i].prev == if i == 0 || (i == 1 && at == 0) then null else if i == at + 1 then before[at - 1] else before[i - 1])
      && (forall i {:trigger before[i].next} :: 0 <= i < |before| && i != at ==>
            before[i].next ==
            if i == |before| - 1 || (i == |before| - 2 && at == |before| - 1) then null
            else if i + 1 == at then before[at + 1] else before[i + 1])
    }

    lemma BypassedIsLinked(before: seq<TableEntry>, at: nat)
      requires at < |before| && nodes == before[..at] + before[at + 1..]
      requires forall i, j :: 0 <= i < j < |before| ==> before[i] != before[j]
      requires Bypassed(before, at)
      requires nodes == [] ==> head == null && tail == null
      requires nodes != [] ==> head == nodes[0] && tail == nodes[|nodes| - 1]
      ensures Linked()
    {
      assert forall i :: 0 <= i < |nodes| ==> nodes[i] == if i < at then before[i] else before[i + 1];
    }

    lemma NeighboursOf(at: nat)
      requires Linked() && at < |nodes|
      ensures nodes[at].prev == if at > 0 then nodes[at - 1] else null
      ensures nodes[at].next == if at < |nodes| - 1 then nodes[at + 1] else null
      ensures at > 0 ==> nodes[at - 1] in nodes
      ensures at < |nodes| - 1 ==> nodes[at + 1] in nodes
    {
    }

    /** Unlinks e and reinserts it at the head. */
    method MoveToFront(e: TableEntry, ghost at: nat)
      requires Linked() && at < |nodes| && nodes[at] == e
      modifies this`head, this`tail, this`nodes, nodes`prev, nodes`next
      ensures Linked() && nodes == Moved(old(nodes), at)
    {
      if head == e {
        assert at == 0 && Moved(nodes, 0) == nodes;
        return;
      }
      Unlink(e, at);
      PushFront(e);
    }

    /** Drops the least recently used entry from both the list and the map. */
    method EvictTail()
      requires Linked() && Indexed() && tail != null
      modifies this`head, this`tail, this`nodes, this`items, this`size, nodes`prev, nodes`next
      ensures Linked() && Indexed() && nodes == old(nodes)[..|old(nodes)| - 1]
      ensures items.Keys <= old(items.Keys) && size == old(size) - 1
    {
      var victim := tail;
      ghost var before, last := nodes, |nodes| - 1;
      assert forall i :: 0 <= i < last ==> nodes[i].key != victim.key;
      items := items - {victim.key};
      Unlink(victim, last);
      hide Linked;
      size := size - 1;
      assert before[last + 1..] == [];
      assert nodes == before[..last];
      CutIndexed(before, items, nodes);
    }

    /** An index of `before` without its last key indexes the rest. */
    static lemma CutIndexed(before: seq<TableEntry>, rest: map<AccountKey, TableEntry>, nodes: seq<TableEntry>)
      requires before != [] && nodes == before[..|before| - 1]
      requires forall k :: k in rest ==> rest[k] in before && rest[k].key == k && k != before[|before| - 1].key
      ensures forall k :: k in rest ==> rest[k] in nodes
    {
      assert before == nodes + [before[|before| - 1]];
    }

    /** The entry for k, moved to the front; created, after an eviction at capacity, if absent. */
    method Touch(k: AccountKey) returns (e: TableEntry)
      requires Valid()
      modifies this, Repr
      ensures Valid() && nodes != [] && nodes[0] == e && e.key == k
      ensures contents == Lru.Touch(old(contents), k, cap)
      ensures Repr >= old(Repr) && fresh(Repr - old(Repr))
    {
      if k in items {
        e := items[k];
        Use(e);
      } else {
        e := Create(k);
      }
    }

    /** A hit: the entry becomes the most recently used. */
    method Use(e: TableEntry)
      requires Valid() && e.key in items && items[e.key] == e
      modifies this`head, this`tail, this`nodes, this`contents, nodes`prev, nodes`next
      ensures Valid() && nodes != [] && nodes[0] == e
      ensures contents == Lru.Touch(old(contents), e.key, cap)
    {
      ghost var at := WhereIs(e);
      Promote(e, at);
    }

    lemma WhereIs(e: TableEntry) returns (at: nat)
      requires Valid() && e.key in items && items[e.key] == e
      ensures at < |nodes| == |contents| && nodes[at] == e
      ensures Lru.Touch(contents, e.key, cap) == Moved(contents, at)
    {
      at :| 0 <= at < |nodes| && nodes[at] == e;
      FindAt(at);
    }

    /** The shard after moving e to the front. */
    method Promote(e: TableEntry, ghost at: nat)
      requires Valid() && at < |nodes| == |contents| && nodes[at] == e
      modifies this`head, this`tail, this`nodes, this`contents, nodes`prev, nodes`next
      ensures Valid() && nodes != [] && nodes[0] == e
      ensures contents == Moved(old(contents), at)
    {
      ghost var before := nodes;
      hide Linked, Mirrors, Owned, Moved, IndexedBy;
      MoveToFront(e, at);
      MovedIndexed(before, at);
      OwnedMoved(before, at, Repr);
      MirrorsMoved(before, contents, at);
      contents := Moved(contents, at);
    }

    /** A miss: evict at capacity, then insert a fresh entry. */
    method Create(k: AccountKey) returns (e: TableEntry)
      requires Valid() && k !in items
      modifies this, Repr
      ensures Valid() && nodes != [] && nodes[0] == e && e.key == k
      ensures contents == Lru.Touch(old(contents), k, cap)
      ensures Repr >= old(Repr) && fresh(Repr - old(Repr))
    {
      TouchMiss(k);
      hide *;
      MakeRoom();
      e := new TableEntry(k);
      AddFirst(e);
    }

    /** The least recently used account goes when the shard is full. */
    method MakeRoom()
      requires Valid()
      modifies this`head, this`tail, this`nodes, this`items, this`size, this`contents, nodes`prev, nodes`next
      ensures Valid() && size < cap && items.Keys <= old(items.Keys)
      ensures contents == if |old(contents)| >= cap then old(contents)[..|old(contents)| - 1] else old(contents)
    {
      EmptyHasNoTail();
      hide *;
      if size >= cap && tail != null {
        DropLast();
      }
    }

    lemma TouchMiss(k: AccountKey)
      requires Valid() && k !in items
      ensures cap >= 1
      ensures Lru.Touch(contents, k, cap) ==
              [Entry(k, FRESH)] + (if |contents| >= cap then contents[..|contents| - 1] else contents)
    {
      FindNone(k);
      hide Find, KeysOf;
    }

    /** The shard after an eviction. */
    method DropLast()
      requires Valid() && tail != null && |nodes| == |contents| && nodes != []
      modifies this`head, this`tail, this`nodes, this`items, this`size, this`contents, nodes`prev, nodes`next
      ensures Valid() && contents == old(contents)[..|old(contents)| - 1] && |nodes| == |contents|
      ensures items.Keys <= old(items.Keys) && size == old(size) - 1
    {
      ghost var before := nodes;
      hide Linked, IndexedBy, Mirrors, Owned;
      EvictTail();
      OwnedCut(before, Repr);
      MirrorsCut(before, contents);
      contents := contents[..|contents| - 1];
    }

    /** The shard after inserting a fresh entry. */
    method AddFirst(e: TableEntry)
      requires Valid() && size < cap && e.key !in items && e !in Repr
      modifies this`head, this`tail, this`nodes, this`items, this`size, this`contents, this`Repr,
               nodes`prev, nodes`next, e`prev, e`next
      ensures Valid() && nodes != [] && nodes[0] == e && Repr == old(Repr) + {e}
      ensures contents == [Entry(e.key, e.acct)] + old(contents)
    {
      ghost var before := nodes;
      assert e !in nodes;
      hide Linked, IndexedBy, Mirrors, Owned;
      Insert(e);
      OwnedPushed(e, before, Repr);
      MirrorsPushed(e, before, contents);
      Repr := Repr + {e};
      contents := [Entry(e.key, e.acct)] + contents;
    }

    lemma EmptyHasNoTail()
      requires Valid()
      ensures (tail == null <==> size == 0) && 1 <= cap && size <= cap
      ensures size == |nodes| == |contents|
    {
    }

    /** Enters a new entry into the map and at the head of the list. */
    method Insert(e: TableEntry)
      requires Linked() && Indexed() && e.key !in items && e !in nodes
      modifies this`head, this`tail, this`nodes, this`items, this`size, nodes`prev, nodes`next, e`prev, e`next
      ensures Linked() && Indexed() && nodes == [e] + old(nodes) && size == old(size) + 1
    {
      ghost var before := nodes;
      assert forall i :: 0 <= i < |nodes| ==> nodes[i].key != e.key;
      items := items[e.key := e];
      PushFront(e);
      size := size + 1;
      hide Linked;
      assert forall i :: 0 <= i < |nodes| ==> nodes[i] == if i == 0 then e else before[i - 1];
      forall k | k in items ensures items[k] in nodes {
        if k != e.key {
          var i :| 0 <= i < |before| && before[i] == items[k];
          assert nodes[i + 1] == before[i];
        }
      }
    }

    lemma FindAt(at: nat)
      requires Valid() && at < |nodes|
      ensures Find(KeysOf(contents), nodes[at].key) == at
    {
      assert forall i :: 0 <= i < |nodes| ==> KeysOf(contents)[i] == nodes[i].key;
      assert forall i, j :: 0 <= i < j < |nodes| ==> nodes[i].key != nodes[j].key;
      FindUnique(KeysOf(contents), nodes[at].key, at);
    }

    lemma FindNone(k: AccountKey)
      requires Valid() && k !in items
      ensures Find(KeysOf(contents), k) == |contents|
    {
      assert forall i :: 0 <= i < |nodes| ==> KeysOf(contents)[i] == nodes[i].key;
    }

    /** Reordering the list keeps it indexed. */
    lemma MovedIndexed(before: seq<TableEntry>, at: nat)
      requires IndexedBy(before) && at < |before|
      requires nodes == Moved(before, at)
      ensures IndexedBy(nodes)
    {
      forall k | k in items ensures items[k] in nodes {
        var i :| 0 <= i < |before| && before[i] == items[k];
        assert nodes[if i == at then 0 else if i < at then i + 1 else i] == before[i];
      }
    }

    /**
     Debits one credit from k's account, creating it first if need be; over the limit, the slip
     counter advances.
     */
    method Charge(k: AccountKey, now: real, rate: real, window: real) returns (over: bool, slip: nat)
      requires Valid()
      modifies this, Repr
      ensures Valid()
      ensures (contents, over, slip) == ChargeList(old(contents), k, cap, now, rate, window)
      ensures Repr >= old(Repr) && fresh(Repr - old(Repr))
    {
      hide CreditAccount.Charge, Ceiling, Lru.Touch;
      var e := Touch(k);
      assert e.acct == contents[0].acct;
      var charged := CreditAccount.Charge(e.acct, now, rate, Ceiling(rate, window));
      over := charged.1;
      Settle(e, if over then charged.0.(slip := charged.0.slip + 1) else charged.0);
      slip := e.acct.slip;
    }

    /** Stores the debited account in the entry at the head. */
    method Settle(e: TableEntry, acct: Account)
      requires Valid() && nodes != [] && nodes[0] == e
      modifies e`acct, this`contents
      ensures Valid() && e.acct == acct && contents == old(contents)[0 := Entry(e.key, acct)]
    {
      e.acct := acct;
      contents := contents[0 := Entry(e.key, acct)];
    }
  }
}
