/** The least-recently-used cache of src/ngrok/cache/lru.go: a table and a list
    of shared entries, with the total size kept in an unsigned 64-bit counter. */
module Lru {
  import opened Options

  const TWO_64 := 0x1_0000_0000_0000_0000

  /** Conversion to an unsigned 64-bit integer, with wrap. */
  function U64(x: int): (r: nat)
    ensures r < TWO_64
  {
    x % TWO_64
  }

  datatype Item<+V> = Item(key: string, value: V)

  // ----- What a cache holds, most recently used first -----

  function Total<V>(sizeOf: V -> nat, items: seq<Item<V>>): nat
  {
    if items == [] then 0 else Total(sizeOf, items[..|items| - 1]) + sizeOf(items[|items| - 1].value)
  }

  predicate Distinct<V>(items: seq<Item<V>>)
  {
    forall i, j :: 0 <= i < j < |items| ==> items[i].key != items[j].key
  }

  function Without<V>(items: seq<Item<V>>, key: string): (r: seq<Item<V>>)
    ensures |r| <= |items|
  {
    if items == [] then []
    else if items[0].key == key then Without(items[1..], key)
    else [items[0]] + Without(items[1..], key)
  }

  function Lookup<V>(items: seq<Item<V>>, key: string): Option<V>
  {
    if items == [] then None
    else if items[0].key == key then Some(items[0].value)
    else Lookup(items[1..], key)
  }

  /** The longest prefix whose total size fits. */
  function Fitting<V>(sizeOf: V -> nat, capacity: nat, items: seq<Item<V>>): (r: seq<Item<V>>)
    ensures r <= items && Total(sizeOf, r) <= capacity
  {
    if Total(sizeOf, items) <= capacity then items
    else Fitting(sizeOf, capacity, items[..|items| - 1])
  }

  /** What the eviction loop keeps: it looks at the counter, which is the total
      modulo 2^64. */
  function Evicted<V>(sizeOf: V -> nat, capacity: nat, items: seq<Item<V>>): (r: seq<Item<V>>)
    ensures r <= items && U64(Total(sizeOf, r)) <= capacity
  {
    if U64(Total(sizeOf, items)) <= capacity then items
    else Evicted(sizeOf, capacity, items[..|items| - 1])
  }

  function SetItem<V>(sizeOf: V -> nat, capacity: nat, items: seq<Item<V>>, item: Item<V>): seq<Item<V>>
  {
    Evicted(sizeOf, capacity, [item] + Without(items, item.key))
  }

  function SetAll<V>(sizeOf: V -> nat, capacity: nat, items: seq<Item<V>>, more: seq<Item<V>>): seq<Item<V>>
    decreases |more|
  {
    if more == [] then items
    else SetAll(sizeOf, capacity, SetItem(sizeOf, capacity, items, more[0]), more[1..])
  }

  lemma {:induction false} TotalConcat<V>(sizeOf: V -> nat, s: seq<Item<V>>, t: seq<Item<V>>)
    ensures Total(sizeOf, s + t) == Total(sizeOf, s) + Total(sizeOf, t)
    decreases |t|
  {
    if t == [] {
      assert s + t == s;
    } else {
      assert (s + t)[..|s + t| - 1] == s + t[..|t| - 1];
      TotalConcat(sizeOf, s, t[..|t| - 1]);
    }
  }

  /** No prefix that fits is longer. */
  lemma {:induction false} FittingIsLongest<V>(sizeOf: V -> nat, capacity: nat, items: seq<Item<V>>, k: nat)
    requires k <= |items| && Total(sizeOf, items[..k]) <= capacity
    ensures k <= |Fitting(sizeOf, capacity, items)|
    decreases |items|
  {
    if k == |items| {
      assert items[..k] == items;
    } else if Total(sizeOf, items) > capacity {
      assert items[..k] == items[..|items| - 1][..k];
      FittingIsLongest(sizeOf, capacity, items[..|items| - 1], k);
    }
  }

  lemma {:induction false} FittingInEvicted<V>(sizeOf: V -> nat, capacity: nat, items: seq<Item<V>>)
    requires capacity < TWO_64
    ensures Fitting(sizeOf, capacity, items) <= Evicted(sizeOf, capacity, items)
  {
    var total := Total(sizeOf, items);
    if U64(total) > capacity {
      if total < TWO_64 {
        U64Small(total);
      }
      FittingInEvicted(sizeOf, capacity, items[..|items| - 1]);
    }
  }

  /** No prefix whose counter fits is longer than what eviction leaves. */
  lemma {:induction false} EvictedIsLongest<V>(sizeOf: V -> nat, capacity: nat, items: seq<Item<V>>, k: nat)
    requires k <= |items| && U64(Total(sizeOf, items[..k])) <= capacity
    ensures k <= |Evicted(sizeOf, capacity, items)|
    decreases |items|
  {
    hide U64;
    if k == |items| {
      assert items[..k] == items;
    } else if U64(Total(sizeOf, items)) > capacity {
      assert items[..k] == items[..|items| - 1][..k];
      EvictedIsLongest(sizeOf, capacity, items[..|items| - 1], k);
    }
  }

  lemma PrefixTotal<V>(sizeOf: V -> nat, items: seq<Item<V>>, k: nat)
    requires k <= |items|
    ensures Total(sizeOf, items[..k]) <= Total(sizeOf, items)
  {
    hide Total;
    TotalConcat(sizeOf, items[..k], items[k..]);
    assert items[..k] + items[k..] == items;
  }

  /** Eviction leaves the longest prefix that fits exactly when no prefix that is too
      large looks as if it fitted, its total wrapped. */
  lemma EvictedExact<V>(sizeOf: V -> nat, capacity: nat, items: seq<Item<V>>)
    requires capacity < TWO_64
    ensures Evicted(sizeOf, capacity, items) == Fitting(sizeOf, capacity, items)
       <==> forall k :: 0 <= k <= |items| && Total(sizeOf, items[..k]) > capacity ==> U64(Total(sizeOf, items[..k])) > capacity
  {
    var e, f := Evicted(sizeOf, capacity, items), Fitting(sizeOf, capacity, items);
    FittingInEvicted(sizeOf, capacity, items);
    assert items[..|e|] == e && items[..|f|] == f;
    hide Total, Evicted, Fitting, U64;
    if e == f {
      forall k | 0 <= k <= |items| && Total(sizeOf, items[..k]) > capacity ensures U64(Total(sizeOf, items[..k])) > capacity {
        if k <= |f| {
          assert f[..k] == items[..k];
          PrefixTotal(sizeOf, f, k);
        } else if U64(Total(sizeOf, items[..k])) <= capacity {
          EvictedIsLongest(sizeOf, capacity, items, k);
        }
      }
    } else if Total(sizeOf, items[..|e|]) <= capacity {
      FittingIsLongest(sizeOf, capacity, items, |e|);
    }
  }

  /** And it can fail: the three sizes add up to 2^64 + 1, so the counter is 1 and
      nothing is evicted, though only the first two fit. */
  lemma WrappedCounter(sizeOf: nat -> nat, items: seq<Item<nat>>, capacity: nat)
    requires forall n :: sizeOf(n) == n
    requires capacity == 0xFFFF_FFFF_FFFF_FFFE
    requires |items| == 3 && items[0].value == 3 && items[1].value == items[2].value == 0x7FFF_FFFF_FFFF_FFFF
    ensures Evicted(sizeOf, capacity, items) == items && Fitting(sizeOf, capacity, items) == items[..2]
  {
    assert items[..2][..1] == items[..1] && items[..1][..0] == [] && items[..3] == items;
    assert Total(sizeOf, items[..1]) == 3;
    assert Total(sizeOf, items[..2]) == 0x8000_0000_0000_0002;
    assert Total(sizeOf, items) == TWO_64 + 1;
  }

  /** In particular when the total did not wrap before the eviction. */
  lemma EvictedFits<V>(sizeOf: V -> nat, capacity: nat, items: seq<Item<V>>)
    requires capacity < TWO_64 && Total(sizeOf, items) < TWO_64
    ensures Evicted(sizeOf, capacity, items) == Fitting(sizeOf, capacity, items)
  {
    hide Evicted, Fitting, Total, U64;
    EvictedExact(sizeOf, capacity, items);
    forall k | 0 <= k <= |items| ensures U64(Total(sizeOf, items[..k])) == Total(sizeOf, items[..k]) {
      PrefixTotal(sizeOf, items, k);
      U64Small(Total(sizeOf, items[..k]));
    }
  }

  /** A cache whose sizes add up to at most its capacity stays one, whatever is set,
      when capacity and new size together fit 64 bits. */
  lemma SetItemFits<V>(sizeOf: V -> nat, capacity: nat, items: seq<Item<V>>, item: Item<V>)
    requires Total(sizeOf, items) <= capacity && capacity + sizeOf(item.value) < TWO_64
    ensures SetItem(sizeOf, capacity, items, item) == Fitting(sizeOf, capacity, [item] + Without(items, item.key))
    ensures Total(sizeOf, SetItem(sizeOf, capacity, items, item)) <= capacity
  {
    hide Evicted, Fitting, Total, Without;
    WithoutTotal(sizeOf, items, item.key);
    TotalMore(sizeOf, item, Without(items, item.key));
    EvictedFits(sizeOf, capacity, [item] + Without(items, item.key));
  }

  lemma {:induction false} WithoutTotal<V>(sizeOf: V -> nat, items: seq<Item<V>>, key: string)
    ensures Total(sizeOf, Without(items, key)) <= Total(sizeOf, items)
  {
    hide Total;
    if items != [] {
      WithoutTotal(sizeOf, items[1..], key);
      TotalMore(sizeOf, items[0], items[1..]);
      TotalMore(sizeOf, items[0], Without(items[1..], key));
      assert items == [items[0]] + items[1..];
    }
  }

  lemma {:induction false} WithoutKeepsOthers<V>(items: seq<Item<V>>, key: string, other: string)
    ensures Lookup(Without(items, key), other) == if other == key then None else Lookup(items, other)
  {
    if items != [] {
      WithoutKeepsOthers(items[1..], key, other);
    }
  }

  lemma {:induction false} WithoutAt<V>(items: seq<Item<V>>, i: nat)
    requires i < |items| && Distinct(items)
    ensures Without(items, items[i].key) == items[..i] + items[i + 1..]
  {
    var key := items[i].key;
    if i == 0 {
      WithoutAbsent(items[1..], key);
      assert items[..0] + items[1..] == items[1..];
    } else {
      WithoutAt(items[1..], i - 1);
      assert items[1..][..i - 1] == items[1..i] && items[1..][i..] == items[i + 1..];
      assert [items[0]] + (items[1..i] + items[i + 1..]) == items[..i] + items[i + 1..];
    }
  }

  lemma WithoutLast<V>(items: seq<Item<V>>)
    requires Distinct(items) && items != []
    ensures Without(items, items[|items| - 1].key) == items[..|items| - 1]
  {
    WithoutAt(items, |items| - 1);
  }

  lemma {:induction false} WithoutAbsent<V>(items: seq<Item<V>>, key: string)
    requires forall i :: 0 <= i < |items| ==> items[i].key != key
    ensures Without(items, key) == items && Lookup(items, key) == None
  {
    if items != [] {
      WithoutAbsent(items[1..], key);
      assert items == [items[0]] + items[1..];
    }
  }

  lemma {:induction false} LookupAt<V>(items: seq<Item<V>>, i: nat)
    requires i < |items| && Distinct(items)
    ensures Lookup(items, items[i].key) == Some(items[i].value)
  {
    if i > 0 {
      LookupAt(items[1..], i - 1);
    }
  }

  lemma TotalOne<V>(sizeOf: V -> nat, item: Item<V>)
    ensures Total(sizeOf, [item]) == sizeOf(item.value)
  {
    assert [item][..0] == [];
  }

  lemma TotalMore<V>(sizeOf: V -> nat, item: Item<V>, items: seq<Item<V>>)
    ensures Total(sizeOf, [item] + items) == Total(sizeOf, items) + sizeOf(item.value)
  {
    hide Total;
    TotalConcat(sizeOf, [item], items);
    TotalOne(sizeOf, item);
  }

  lemma TotalWithout<V>(sizeOf: V -> nat, items: seq<Item<V>>, i: nat)
    requires i < |items|
    ensures Total(sizeOf, items[..i] + items[i + 1..]) + sizeOf(items[i].value) == Total(sizeOf, items)
  {
    hide Total;
    var mid := [items[i]];
    assert items == (items[..i] + mid) + items[i + 1..];
    TotalConcat(sizeOf, items[..i] + mid, items[i + 1..]);
    TotalConcat(sizeOf, items[..i], mid);
    TotalConcat(sizeOf, items[..i], items[i + 1..]);
    TotalOne(sizeOf, items[i]);
  }

  lemma AddDistinct<V>(items: seq<Item<V>>, item: Item<V>)
    requires Distinct(items) && Without(items, item.key) == items
    ensures Distinct([item] + items)
  {
    WithoutHasNone(items, item.key);
  }

  lemma {:induction false} WithoutHasNone<V>(items: seq<Item<V>>, key: string)
    ensures forall i :: 0 <= i < |Without(items, key)| ==> Without(items, key)[i].key != key
  {
    if items != [] {
      WithoutHasNone(items[1..], key);
    }
  }

  /** Giving an item a new value changes the total by the difference, and the
      other items not at all. */
  lemma Replaced<V>(sizeOf: V -> nat, items: seq<Item<V>>, i: nat, item: Item<V>)
    requires i < |items| && Distinct(items) && items[i].key == item.key
    ensures Distinct(items[i := item]) && Without(items[i := item], item.key) == Without(items, item.key)
    ensures Total(sizeOf, items[i := item]) == Total(sizeOf, items) - sizeOf(items[i].value) + sizeOf(item.value)
  {
    hide Total, Without;
    var now := items[i := item];
    WithoutAt(items, i);
    WithoutAt(now, i);
    assert items[..i] == now[..i] && items[i + 1..] == now[i + 1..];
    TotalWithout(sizeOf, items, i);
    TotalWithout(sizeOf, now, i);
  }

  /** What was just set is found if it fits, and not if it does not, unless the
      counter wraps. */
  lemma SetThenLookup<V>(sizeOf: V -> nat, capacity: nat, items: seq<Item<V>>, item: Item<V>)
    requires capacity < TWO_64
    ensures sizeOf(item.value) <= capacity ==> Lookup(SetItem(sizeOf, capacity, items, item), item.key) == Some(item.value)
    ensures Total(sizeOf, [item] + Without(items, item.key)) < TWO_64 && sizeOf(item.value) > capacity ==>
              Lookup(SetItem(sizeOf, capacity, items, item), item.key) == None
  {
    var all := [item] + Without(items, item.key);
    TotalOne(sizeOf, item);
    assert all[..1] == [item];
    hide Total, Without;
    FittingInEvicted(sizeOf, capacity, all);
    var fits := Fitting(sizeOf, capacity, all);
    if sizeOf(item.value) <= capacity {
      FittingIsLongest(sizeOf, capacity, all, 1);
    }
    if Total(sizeOf, all) < TWO_64 && sizeOf(item.value) > capacity {
      EvictedFits(sizeOf, capacity, all);
      if fits != [] {
        assert fits == [item] + fits[1..];
        TotalMore(sizeOf, item, fits[1..]);
      }
    }
  }

  // ----- Saving and loading -----

  function Reverse<V>(items: seq<Item<V>>): (r: seq<Item<V>>)
    ensures |r| == |items|
  {
    if items == [] then [] else Reverse(items[1..]) + [items[0]]
  }

  /** Loading a saved cache into an empty one that is as large brings back every
      item, in the opposite order of use: the file lists the most recently used
      first, and loading sets the items one by one. */
  lemma LoadReversesOrder<V>(sizeOf: V -> nat, capacity: nat, items: seq<Item<V>>)
    requires Distinct(items) && Total(sizeOf, items) <= capacity < TWO_64
    ensures SetAll(sizeOf, capacity, [], items) == Reverse(items)
  {
    assert items + [] == items;
    LoadOnto(sizeOf, capacity, [], items);
    assert Reverse(items) + [] == Reverse(items);
  }

  lemma {:induction false} LoadOnto<V>(sizeOf: V -> nat, capacity: nat, base: seq<Item<V>>, items: seq<Item<V>>)
    requires Distinct(items) && Total(sizeOf, items) + Total(sizeOf, base) <= capacity < TWO_64
    requires forall i, j :: 0 <= i < |items| && 0 <= j < |base| ==> items[i].key != base[j].key
    ensures SetAll(sizeOf, capacity, base, items) == Reverse(items) + base
    decreases |items|
  {
    hide Total;
    if items == [] {
      assert Reverse(items) + base == base;
    } else {
      var next := [items[0]] + base;
      assert items == [items[0]] + items[1..];
      TotalMore(sizeOf, items[0], base);
      TotalMore(sizeOf, items[0], items[1..]);
      SetFits(sizeOf, capacity, base, items[0]);
      LoadOnto(sizeOf, capacity, next, items[1..]);
      assert Reverse(items[1..]) + next == Reverse(items) + base;
    }
  }

  lemma SetFits<V>(sizeOf: V -> nat, capacity: nat, items: seq<Item<V>>, item: Item<V>)
    requires forall j :: 0 <= j < |items| ==> items[j].key != item.key
    requires Total(sizeOf, [item] + items) <= capacity < TWO_64
    ensures SetItem(sizeOf, capacity, items, item) == [item] + items
  {
    hide Total;
    WithoutAbsent(items, item.key);
    U64Small(Total(sizeOf, [item] + items));
  }

  // ----- The counter -----

  lemma U64Small(x: nat)
    requires x < TWO_64
    ensures U64(x) == x
  {
  }

  lemma WrapAdd(a: int, d: int)
    ensures U64(a + U64(d)) == U64(a + d)
  {
    assert U64(d) == d - d / TWO_64 * TWO_64;
    WrapShift(a + d, -(d / TWO_64));
  }

  /** The counter of a total, changed by a difference, is the counter of the new total. */
  lemma CounterMoves(total: int, d: int)
    ensures U64(U64(total) + U64(d)) == U64(total + d)
  {
    WrapAdd(U64(total), d);
    assert U64(total) == total - total / TWO_64 * TWO_64;
    WrapShift(total + d, -(total / TWO_64));
  }

  lemma WrapShift(a: int, k: int)
    ensures U64(a + k * TWO_64) == U64(a)
  {
  }

  // ----- The cache -----

  class Entry<V> {
    const key: string
    var value: V
    var size: nat

    constructor (key: string, value: V, size: nat)
      ensures this.key == key && this.value == value && this.size == size
    {
      this.key, this.value, this.size := key, value, size;
    }
  }

  /** The table finds exactly the listed entries, by their own keys. */
  ghost predicate Indexed<V(!new)>(list: seq<Entry<V>>, table: map<string, Entry<V>>) {
    && (forall e :: e in list ==> e.key in table && table[e.key] == e)
    && (forall k :: k in table ==> table[k] in list && table[k].key == k)
  }

  /** The entries hold the items, each with the size of its value. */
  ghost predicate Backed<V(!new)>(sizeOf: V -> nat, list: seq<Entry<V>>, items: seq<Item<V>>)
    reads list
  {
    && |items| == |list|
    && forall i :: 0 <= i < |list| ==> items[i] == Item(list[i].key, list[i].value) && list[i].size == sizeOf(list[i].value)
  }

  class LRUCache<V(!new)> {
    const sizeOf: V -> nat
    var list: seq<Entry<V>>
    var table: map<string, Entry<V>>
    var size: nat
    var capacity: nat
    ghost var items: seq<Item<V>>

    ghost predicate Linked()
      reads this, list
    {
      Indexed(list, table) && Backed(sizeOf, list, items) && Distinct(items)
    }

    /** Table and list agree, no key appears twice, and the counter is the sum of the
        sizes modulo 2^64. */
    ghost predicate Valid()
      reads this, list
    {
      Linked() && size == U64(Total(sizeOf, items)) && capacity < TWO_64
    }

    /** The sum of the sizes itself is within the capacity, so the counter is exact. */
    ghost predicate Fits()
      reads this
    {
      Total(sizeOf, items) <= capacity
    }

    constructor (capacity: nat, sizeOf: V -> nat)
      requires capacity < TWO_64
      ensures Valid() && Fits() && items == [] && this.capacity == capacity && this.sizeOf == sizeOf
    {
      this.sizeOf, this.capacity := sizeOf, capacity;
      list, table, size, items := [], map[], 0, [];
    }

    ghost function Index(key: string): (i: nat)
      reads this, list
      requires Linked() && key in table
      ensures i < |list| && list[i] == table[key] && items[i].key == key
    {
      var i :| 0 <= i < |list| && list[i] == table[key];
      i
    }

    /** The entries a method may change. */
    ghost function Entries(): set<object>
      reads this`list
    {
      set e: Entry<V> | e in list :: e
    }

    /** What the table finds is what the list holds. */
    lemma TableLookup(key: string)
      requires Linked()
      ensures Lookup(items, key) == if key in table then Some(table[key].value) else None
      ensures key !in table ==> Without(items, key) == items
    {
      if key in table {
        LookupAt(items, Index(key));
      } else {
        WithoutAbsent(items, key);
      }
    }

    /** Takes the entry at i out of the list and the items, not out of the table. */
    method Unlink(i: nat)
      requires Backed(sizeOf, list, items) && Distinct(items) && i < |list|
      modifies this`list, this`items
      ensures list == old(list[..i] + list[i + 1..])
      ensures items == Without(old(items), old(items)[i].key)
      ensures Backed(sizeOf, list, items) && Distinct(items) && Distinct([old(items)[i]] + items)
      ensures Total(sizeOf, items) + sizeOf(old(items)[i].value) == Total(sizeOf, old(items))
    {
      hide Total, Without;
      WithoutAt(items, i);
      TotalWithout(sizeOf, items, i);
      list := list[..i] + list[i + 1..];
      items := items[..i] + items[i + 1..];
    }

    method PushFront(element: Entry<V>)
      requires Backed(sizeOf, list, items) && element.size == sizeOf(element.value)
      requires Distinct([Item(element.key, element.value)] + items)
      modifies this`list, this`items
      ensures list == [element] + old(list) && items == [Item(element.key, element.value)] + old(items)
      ensures Backed(sizeOf, list, items) && Distinct(items)
      ensures Total(sizeOf, items) == Total(sizeOf, old(items)) + element.size
    {
      hide Total, Distinct, Backed;
      TotalMore(sizeOf, Item(element.key, element.value), items);
      BackedMore(sizeOf, list, items, element);
      list := [element] + list;
      items := [Item(element.key, element.value)] + items;
    }

    method MoveToFront(element: Entry<V>)
      requires Linked() && element in list
      modifies this`list, this`items
      ensures Linked()
      ensures items == [Item(element.key, element.value)] + Without(old(items), element.key)
      ensures Total(sizeOf, items) == Total(sizeOf, old(items))
      ensures Within(list, old(list)) && Within(old(list), list)
    {
      hide Total, Without, Distinct, Indexed, Backed, Within;
      var i :| 0 <= i < |list| && list[i] == element;
      BackedAt(sizeOf, list, items, i);
      ToFrontIndexed(list, element, i, table);
      Unlink(i);
      PushFront(element);
    }

    /** One turn of the eviction loop: the least recently used entry goes. The
        list cannot be empty here, since the counter exceeds the capacity. */
    method EvictBack()
      requires Linked() && capacity < size == U64(Total(sizeOf, items))
      modifies this`list, this`items, this`table, this`size
      ensures Linked() && size == U64(Total(sizeOf, items))
      ensures old(items) != [] && items == old(items)[..|old(items)| - 1]
      ensures Within(list, old(list))
    {
      assert items != [];
      WithoutLast(items);
      DropLink(|list| - 1);
    }

    /** What eviction and deletion share: the entry leaves the list and the table,
        and its size leaves the counter. */
    method DropLink(i: nat)
      requires Linked() && size == U64(Total(sizeOf, items)) && i < |list|
      modifies this`list, this`items, this`table, this`size
      ensures Linked() && size == U64(Total(sizeOf, items))
      ensures items == Without(old(items), old(items)[i].key)
      ensures Within(list, old(list))
    {
      hide Total, Distinct, Without, U64, Indexed, Backed, Within;
      BackedAt(sizeOf, list, items, i);
      WithoutEntry(sizeOf, list, table, items, i);
      WithinRest(list, i);
      var element := list[i];
      Unlink(i);
      Forget(element);
    }

    method Forget(element: Entry<V>)
      requires Indexed(list, table - {element.key}) && Backed(sizeOf, list, items) && Distinct(items)
      requires size == U64(Total(sizeOf, items) + element.size)
      modifies this`table, this`size
      ensures Linked() && size == U64(Total(sizeOf, items))
    {
      hide Total, Distinct, U64, Indexed, Backed;
      CounterMoves(Total(sizeOf, items) + element.size, 0 - element.size);
      table := table - {element.key};
      size := U64(size + U64(0 - element.size));
    }

    method CheckCapacity()
      requires Linked() && size == U64(Total(sizeOf, items)) && capacity < TWO_64
      modifies this`list, this`items, this`table, this`size
      ensures Valid() && items == Evicted(sizeOf, capacity, old(items))
      ensures Within(list, old(list))
    {
      hide Total, Distinct, Indexed, Backed, U64;
      while size > capacity
        invariant Linked() && size == U64(Total(sizeOf, items))
        invariant Evicted(sizeOf, capacity, items) == Evicted(sizeOf, capacity, old(items))
        invariant Within(list, old(list))
        decreases |items|
      {
        EvictBack();
      }
    }

    method UpdateInplace(element: Entry<V>, value: V)
      requires Valid() && element in list
      modifies this`list, this`items, this`table, this`size, element
      ensures Valid() && items == SetItem(sizeOf, capacity, old(items), Item(element.key, value))
      ensures Within(list, old(list))
    {
      hide Total, Distinct, Without, U64, Evicted, Indexed;
      SetValue(element, value);
      MoveToFront(element);
      CheckCapacity();
    }

    /** The first half of updateInplace: the entry and the counter, in place. */
    method SetValue(element: Entry<V>, value: V)
      requires Valid() && element in list
      modifies this`items, this`size, element
      ensures Linked() && size == U64(Total(sizeOf, items)) && element.value == value
      ensures Without(items, element.key) == Without(old(items), element.key)
    {
      hide Total, Distinct, Without, U64, Indexed;
      ghost var i :| 0 <= i < |list| && list[i] == element;
      ghost var was := items;
      OnlyAt(sizeOf, list, items, i);
      TotalWithout(sizeOf, items, i);
      Replaced(sizeOf, was, i, Item(element.key, value));
      CounterMoves(Total(sizeOf, was), sizeOf(value) - element.size);
      var sizeDiff := sizeOf(value) - element.size;
      element.value := value;
      element.size := sizeOf(value);
      items := items[i := Item(element.key, value)];
      size := U64(size + U64(sizeDiff));
    }

    method AddNew(key: string, value: V)
      requires Valid() && key !in table
      modifies this`list, this`items, this`table, this`size
      ensures Valid() && items == SetItem(sizeOf, capacity, old(items), Item(key, value))
      ensures fresh(Entries() - old(Entries()))
    {
      hide Total, Distinct, Indexed, Backed, Without, Evicted, U64, Lookup;
      TableLookup(key);
      AddDistinct(items, Item(key, value));
      var element := new Entry(key, value, sizeOf(value));
      AddIndexed(list, table, element);
      PushFront(element);
      table := table[key := element];
      CounterMoves(Total(sizeOf, items) - element.size, element.size);
      size := U64(size + U64(element.size));
      CheckCapacity();
    }

    method Get(key: string) returns (v: Option<V>)
      requires Valid()
      modifies this`list, this`items
      ensures Valid() && v == Lookup(old(items), key)
      ensures v == None ==> items == old(items)
      ensures v.Some? ==> items == [Item(key, v.value)] + Without(old(items), key)
      ensures Entries() <= old(Entries())
    {
      TableLookup(key);
      if key !in table {
        return None;
      }
      var element := table[key];
      MoveToFront(element);
      return Some(element.value);
    }

    method Set(key: string, value: V)
      requires Valid()
      modifies this, Entries()
      ensures Valid() && capacity == old(capacity)
      ensures items == SetItem(sizeOf, capacity, old(items), Item(key, value))
      ensures old(Fits()) && capacity + sizeOf(value) < TWO_64 ==>
                Fits() && items == Fitting(sizeOf, capacity, [Item(key, value)] + Without(old(items), key))
      ensures fresh(Entries() - old(Entries()))
    {
      if Total(sizeOf, items) <= capacity && capacity + sizeOf(value) < TWO_64 {
        SetItemFits(sizeOf, capacity, items, Item(key, value));
      }
      hide SetItem, Fitting, Total, Without;
      if key in table {
        UpdateInplace(table[key], value);
      } else {
        AddNew(key, value);
      }
    }

    method SetIfAbsent(key: string, value: V)
      requires Valid()
      modifies this`list, this`items, this`table, this`size
      ensures Valid()
      ensures items == match Lookup(old(items), key)
                       case Some(v) => [Item(key, v)] + Without(old(items), key)
                       case None => SetItem(sizeOf, capacity, old(items), Item(key, value))
    {
      TableLookup(key);
      if key in table {
        MoveToFront(table[key]);
      } else {
        AddNew(key, value);
      }
    }

    method Delete(key: string) returns (found: bool)
      requires Valid()
      modifies this`list, this`items, this`table, this`size
      ensures Valid() && items == Without(old(items), key) && (old(Fits()) ==> Fits())
      ensures found <==> Lookup(old(items), key).Some?
    {
      TableLookup(key);
      WithoutTotal(sizeOf, items, key);
      if key !in table {
        return false;
      }
      ghost var at := Index(key);
      var i :| 0 <= i < |list| && list[i] == table[key];
      assert items[i].key == key;
      hide Total, Distinct, Without, U64, Indexed, Backed, Lookup;
      DropLink(i);
      return true;
    }

    method Clear()
      requires capacity < TWO_64
      modifies this`list, this`items, this`table, this`size
      ensures Valid() && items == [] && Fits()
    {
      list, table, size, items := [], map[], 0, [];
    }

    method SetCapacity(capacity: nat)
      requires Valid() && capacity < TWO_64
      modifies this
      ensures Valid() && this.capacity == capacity
      ensures items == Evicted(sizeOf, capacity, old(items))
      ensures Total(sizeOf, old(items)) < TWO_64 ==> Fits() && items == Fitting(sizeOf, capacity, old(items))
    {
      if Total(sizeOf, items) < TWO_64 {
        EvictedFits(sizeOf, capacity, items);
      }
      this.capacity := capacity;
      CheckCapacity();
    }

    method Items() returns (r: seq<Item<V>>)
      requires Valid()
      ensures r == items
    {
      r := [];
      for i := 0 to |list|
        invariant r == items[..i]
      {
        r := r + [Item(list[i].key, list[i].value)];
      }
    }

    method LoadItems(saved: seq<Item<V>>)
      requires Valid()
      modifies this, Entries()
      ensures Valid() && capacity == old(capacity)
      ensures items == SetAll(sizeOf, capacity, old(items), saved)
    {
      assert saved[0..] == saved;
      hide Total, Distinct, Without, U64, SetAll, SetItem, Evicted;
      for i := 0 to |saved|
        invariant Valid() && capacity == old(capacity)
        invariant fresh(Entries() - old(Entries()))
        invariant SetAll(sizeOf, capacity, items, saved[i..]) == SetAll(sizeOf, capacity, old(items), saved)
      {
        SetNext(sizeOf, capacity, items, saved, i);
        Set(saved[i].key, saved[i].value);
      }
      SetNone(sizeOf, capacity, items, saved);
    }
  }

  lemma SetNext<V>(sizeOf: V -> nat, capacity: nat, items: seq<Item<V>>, saved: seq<Item<V>>, i: nat)
    requires i < |saved|
    ensures SetAll(sizeOf, capacity, items, saved[i..])
         == SetAll(sizeOf, capacity, SetItem(sizeOf, capacity, items, Item(saved[i].key, saved[i].value)), saved[i + 1..])
  {
    assert saved[i..][1..] == saved[i + 1..] && Item(saved[i].key, saved[i].value) == saved[i];
  }

  lemma SetNone<V>(sizeOf: V -> nat, capacity: nat, items: seq<Item<V>>, saved: seq<Item<V>>)
    ensures SetAll(sizeOf, capacity, items, saved[|saved|..]) == items
  {
  }

  lemma BackedAt<V(!new)>(sizeOf: V -> nat, list: seq<Entry<V>>, items: seq<Item<V>>, i: nat)
    requires Backed(sizeOf, list, items) && i < |list|
    ensures |items| == |list|
    ensures items[i] == Item(list[i].key, list[i].value) && list[i].size == sizeOf(list[i].value)
  {
  }

  lemma BackedMore<V(!new)>(sizeOf: V -> nat, list: seq<Entry<V>>, items: seq<Item<V>>, element: Entry<V>)
    requires Backed(sizeOf, list, items) && element.size == sizeOf(element.value)
    ensures Backed(sizeOf, [element] + list, [Item(element.key, element.value)] + items)
  {
  }

  lemma OnlyAt<V(!new)>(sizeOf: V -> nat, list: seq<Entry<V>>, items: seq<Item<V>>, i: nat)
    requires Backed(sizeOf, list, items) && Distinct(items) && i < |list|
    ensures forall k :: 0 <= k < |list| && k != i ==> list[k].key != list[i].key
  {
    assert forall k :: 0 <= k < |list| && k != i ==> items[k].key != items[i].key;
  }

  /** Only the entry at i has its key, so dropping that key from the table
      leaves exactly the other entries. */
  lemma WithoutEntry<V(!new)>(sizeOf: V -> nat, list: seq<Entry<V>>, table: map<string, Entry<V>>, items: seq<Item<V>>, i: nat)
    requires Indexed(list, table) && Backed(sizeOf, list, items) && Distinct(items) && i < |list|
    ensures Indexed(list[..i] + list[i + 1..], table - {list[i].key})
  {
    OnlyAt(sizeOf, list, items, i);
    WithoutIndexed(list, table, i);
  }

  lemma WithoutIndexed<V(!new)>(list: seq<Entry<V>>, table: map<string, Entry<V>>, i: nat)
    requires Indexed(list, table) && i < |list|
    requires forall k :: 0 <= k < |list| && k != i ==> list[k].key != list[i].key
    ensures Indexed(list[..i] + list[i + 1..], table - {list[i].key})
  {
    var rest, element := list[..i] + list[i + 1..], list[i];
    ToFront(list, element, i);
    forall e | e in rest ensures e in list && e.key != element.key {
      var k :| 0 <= k < |rest| && rest[k] == e;
      assert e == list[if k < i then k else k + 1];
    }
    forall e | e in list && e != element ensures e in rest {
      assert e in [element] + rest;
    }
  }

  predicate Within<T(==)>(now: seq<T>, was: seq<T>) {
    forall e :: e in now ==> e in was
  }

  lemma ToFront<T>(s: seq<T>, x: T, i: nat)
    requires i < |s| && s[i] == x
    ensures Within([x] + (s[..i] + s[i + 1..]), s) && Within(s, [x] + (s[..i] + s[i + 1..]))
  {
    assert s == s[..i] + [x] + s[i + 1..];
  }

  lemma AddIndexed<V(!new)>(list: seq<Entry<V>>, table: map<string, Entry<V>>, element: Entry<V>)
    requires Indexed(list, table) && element.key !in table
    ensures Indexed([element] + list, table[element.key := element])
  {
  }

  lemma ToFrontIndexed<V(!new)>(list: seq<Entry<V>>, element: Entry<V>, i: nat, table: map<string, Entry<V>>)
    requires Indexed(list, table) && i < |list| && list[i] == element
    ensures Indexed([element] + (list[..i] + list[i + 1..]), table)
    ensures Within([element] + (list[..i] + list[i + 1..]), list) && Within(list, [element] + (list[..i] + list[i + 1..]))
  {
    ToFront(list, element, i);
  }

  lemma WithinRest<T>(s: seq<T>, i: nat)
    requires i < |s|
    ensures Within(s[..i] + s[i + 1..], s)
  {
  }
}
