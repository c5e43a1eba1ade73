/** The read-only tables of sharedata (lua-sharedata.c): a Lua table is copied into an
    array part and a hash part without spare slots, filled in two passes; lookups follow
    chains of slot indices.

    Keys are 32-bit integers and strings; calchash is any function of the string, and a
    string index stands for its string.  Values are opaque: a nested table is converted by
    a call of its own. */
module Sharedata {
  import opened Prelude

  datatype Key = IntKey(i: int) | StrKey(s: string)

  datatype Entry<V> = Entry(key: Key, value: V)

  /** struct node; a slot without value has VALUETYPE_NIL. */
  datatype Node<V> = Node(value: Option<V>, key: Key, next: int, keyhash: nat, nocolliding: bool)

  /** The conversion of a lua_Integer to an int. */
  function ToInt(k: int): int {
    var low := k % 0x1_0000_0000;
    if low >= 0x8000_0000 then low - 0x1_0000_0000 else low
  }

  predicate KeyOk(key: Key) { key.IntKey? ==> -0x8000_0000 <= key.i < 0x8000_0000 }

  function KeyHash(calchash: string -> nat, key: Key): nat {
    match key
    case IntKey(i) => i % 0x1_0000_0000
    case StrKey(s) => calchash(s) % 0x1_0000_0000
  }

  /** The slot a key hashes to. */
  function MainOf(calchash: string -> nat, size: nat): Key -> nat
    requires size > 0
  {
    key => KeyHash(calchash, key) % size
  }

  predicate InArray(key: Key, sizearray: nat) { key.IntKey? && 0 < key.i <= sizearray }

  // ---- the source table --------------------------------------------------------------------

  predicate DistinctKeys<V>(entries: seq<Entry<V>>) {
    forall j, k :: 0 <= j < k < |entries| ==> entries[j].key != entries[k].key
  }

  predicate SourceOk<V>(entries: seq<Entry<V>>) {
    DistinctKeys(entries) && forall k :: 0 <= k < |entries| ==> KeyOk(entries[k].key)
  }

  function Find<V>(entries: seq<Entry<V>>, key: Key): Option<V> {
    if entries == [] then None
    else if entries[0].key == key then Some(entries[0].value)
    else Find(entries[1..], key)
  }

  lemma {:induction false} FindAt<V>(entries: seq<Entry<V>>, k: nat)
    requires DistinctKeys(entries) && k < |entries|
    ensures Find(entries, entries[k].key) == Some(entries[k].value)
  {
    if k > 0 {
      FindAt(entries[1..], k - 1);
    }
  }

  lemma {:induction false} FindNone<V>(entries: seq<Entry<V>>, key: Key)
    requires forall k :: 0 <= k < |entries| ==> entries[k].key != key
    ensures Find(entries, key) == None
  {
    if entries != [] {
      FindNone(entries[1..], key);
    }
  }

  /** The keys of the hash part, in source order. */
  function HashKeys<V>(entries: seq<Entry<V>>, sizearray: nat): seq<Key> {
    if entries == [] then []
    else
      var last := entries[|entries| - 1].key;
      HashKeys(entries[..|entries| - 1], sizearray) + if InArray(last, sizearray) then [] else [last]
  }

  lemma {:induction false} HashKeysAre<V>(entries: seq<Entry<V>>, sizearray: nat)
    requires DistinctKeys(entries)
    ensures forall key :: key in HashKeys(entries, sizearray) <==>
              !InArray(key, sizearray) && exists k :: 0 <= k < |entries| && entries[k].key == key
    ensures Distinct(HashKeys(entries, sizearray))
  {
    if entries != [] {
      HashKeysAre(entries[..|entries| - 1], sizearray);
    }
  }

  // ---- counting ------------------------------------------------------------------------------

  predicate Distinct<T(==)>(s: seq<T>) {
    forall i, j :: 0 <= i < j < |s| ==> s[i] != s[j]
  }

  /** Distinct elements of a set are no more than the set has. */
  lemma {:induction false} Pigeonhole<T>(s: seq<T>, pool: set<T>)
    requires Distinct(s) && forall i :: 0 <= i < |s| ==> s[i] in pool
    ensures |s| <= |pool|
  {
    if s != [] {
      var n := |s| - 1;
      Pigeonhole(s[..n], pool - {s[n]});
    }
  }

  // ---- slots and chains -------------------------------------------------------------------------

  predicate Filled<V>(s: seq<Node<V>>, i: nat)
    requires i < |s|
  {
    s[i].value.Some?
  }

  /** What a filled slot holds comes from the source. */
  predicate SlotOk<V(==)>(n: Node<V>, calchash: string -> nat, entries: seq<Entry<V>>, sizearray: nat) {
    n.value.Some? ==>
      n.keyhash == KeyHash(calchash, n.key) && !InArray(n.key, sizearray) && Find(entries, n.key) == n.value
  }

  predicate SlotsDistinct<V>(s: seq<Node<V>>) {
    forall i, j :: 0 <= i < j < |s| && Filled(s, i) && Filled(s, j) ==> s[i].key != s[j].key
  }

  /** c lists the slots of the chain that starts at main position m. */
  predicate ChainOk<V>(s: seq<Node<V>>, main: Key -> nat, c: seq<nat>, m: nat) {
    && (c != [] ==> c[0] == m)
    && Distinct(c)
    && forall t :: 0 <= t < |c| ==> LinkOk(s, main, c, m, t)
  }

  predicate LinkOk<V>(s: seq<Node<V>>, main: Key -> nat, c: seq<nat>, m: nat, t: nat)
    requires t < |c|
  {
    && c[t] < |s|
    && Filled(s, c[t])
    && main(s[c[t]].key) == m
    && s[c[t]].next == (if t + 1 < |c| then c[t + 1] else -1)
    && s[c[t]].nocolliding == (|c| == 1)
  }

  /** Every filled slot is on the chain of its key's main position. */
  predicate Chained<V>(s: seq<Node<V>>, main: Key -> nat, chains: seq<seq<nat>>) {
    && |chains| == |s|
    && (forall m :: 0 <= m < |chains| ==> ChainOk(s, main, chains[m], m))
    && forall i :: 0 <= i < |s| && Filled(s, i) ==> main(s[i].key) < |s| && i in chains[main(s[i].key)]
  }

  /** After fillnocolliding did j entries: a filled slot holds a key that hashes to it, and
      every slot that a key hashes to is filled. */
  predicate FirstPass<V>(s: seq<Node<V>>, main: Key -> nat, entries: seq<Entry<V>>, sizearray: nat, j: nat)
    requires j <= |entries|
  {
    && (forall i :: 0 <= i < |s| && Filled(s, i) ==> main(s[i].key) == i && s[i].nocolliding && s[i].next == -1)
    && (forall k :: 0 <= k < j && !InArray(entries[k].key, sizearray) ==>
          main(entries[k].key) < |s| && Filled(s, main(entries[k].key)))
  }

  function FirstChains<V>(s: seq<Node<V>>): seq<seq<nat>> {
    seq(|s|, i requires 0 <= i < |s| => if Filled(s, i) then [i] else [])
  }

  lemma FirstChained<V>(s: seq<Node<V>>, main: Key -> nat, entries: seq<Entry<V>>, sizearray: nat)
    requires FirstPass(s, main, entries, sizearray, |entries|)
    ensures Chained(s, main, FirstChains(s)) && SlotsDistinct(s)
  {
    var chains := FirstChains(s);
    forall m | 0 <= m < |s| ensures ChainOk(s, main, chains[m], m) {
      assert forall t :: 0 <= t < |chains[m]| ==> LinkOk(s, main, chains[m], m, t);
    }
  }

  // ---- inserting a colliding key ------------------------------------------------------------------

  /** The slots after a key is put into the empty slot n behind main position m. */
  function Behind<V>(s: seq<Node<V>>, m: nat, n: nat, node: Node<V>): seq<Node<V>>
    requires m < |s| && n < |s|
  {
    s[n := node.(next := s[m].next, nocolliding := false)][m := s[m].(next := n, nocolliding := false)]
  }

  lemma BehindChain<V>(s: seq<Node<V>>, main: Key -> nat, c: seq<nat>, m: nat, n: nat, node: Node<V>)
    requires m < |s| && n < |s| && !Filled(s, n) && c != [] && ChainOk(s, main, c, m)
    requires node.value.Some? && main(node.key) == m
    ensures ChainOk(Behind(s, m, n, node), main, [m, n] + c[1..], m)
  {
    var c' := [m, n] + c[1..];
    var s' := Behind(s, m, n, node);
    assert forall t :: 0 <= t < |c| ==> LinkOk(s, main, c, m, t);
    assert LinkOk(s, main, c, m, 0);
    forall t, u | 0 <= t < u < |c'| ensures c'[t] != c'[u] {
      if u >= 2 {
        assert c'[u] == c[u - 1] && LinkOk(s, main, c, m, u - 1);
      }
    }
    forall t | 0 <= t < |c'| ensures LinkOk(s', main, c', m, t) {
      if t >= 2 {
        assert c'[t] == c[t - 1];
        assert LinkOk(s, main, c, m, t - 1);
      }
    }
  }

  lemma OtherChain<V>(s: seq<Node<V>>, main: Key -> nat, c: seq<nat>, m: nat, n: nat, node: Node<V>, o: nat)
    requires m < |s| && n < |s| && !Filled(s, n) && Filled(s, m) && main(s[m].key) == m
    requires o != m && ChainOk(s, main, c, o)
    ensures ChainOk(Behind(s, m, n, node), main, c, o)
  {
    forall t | 0 <= t < |c| ensures LinkOk(Behind(s, m, n, node), main, c, o, t) {
      assert LinkOk(s, main, c, o, t);
    }
  }

  lemma BehindChained<V>(s: seq<Node<V>>, main: Key -> nat, chains: seq<seq<nat>>, m: nat, n: nat, node: Node<V>)
    requires m < |s| && n < |s| && !Filled(s, n) && Filled(s, m) && main(s[m].key) == m
    requires Chained(s, main, chains)
    requires node.value.Some? && main(node.key) == m
    ensures Chained(Behind(s, m, n, node), main, chains[m := [m, n] + chains[m][1..]])
  {
    var s' := Behind(s, m, n, node);
    var chains' := chains[m := [m, n] + chains[m][1..]];
    assert m in chains[main(s[m].key)];
    forall o | 0 <= o < |chains'| ensures ChainOk(s', main, chains'[o], o) {
      assert ChainOk(s, main, chains[o], o);
      if o == m {
        BehindChain(s, main, chains[m], m, n, node);
      } else {
        OtherChain(s, main, chains[o], m, n, node, o);
      }
    }
    forall i | 0 <= i < |s'| && Filled(s', i) ensures main(s'[i].key) < |s'| && i in chains'[main(s'[i].key)] {
      if i == n {
        assert chains'[m][1] == n;
      } else {
        assert i in chains[main(s[i].key)];
        if main(s[i].key) == m && i != m {
          var t :| 0 <= t < |chains[m]| && chains[m][t] == i;
          assert chains'[m][t + 1] == i;
        } else if i == m {
          assert chains'[m][0] == m;
        }
      }
    }
  }

  // ---- after both passes -----------------------------------------------------------------------------

  predicate Present<V>(s: seq<Node<V>>, key: Key) {
    exists i :: 0 <= i < |s| && Filled(s, i) && s[i].key == key
  }

  /** Where a present key is. */
  ghost function SlotOf<V>(s: seq<Node<V>>, key: Key): (i: nat)
    requires Present(s, key)
    ensures i < |s| && Filled(s, i) && s[i].key == key
  {
    var i :| 0 <= i < |s| && Filled(s, i) && s[i].key == key;
    i
  }

  /** While a key of the source is missing, some slot is empty. */
  lemma RoomLeft<V>(s: seq<Node<V>>, keys: seq<Key>, key: Key)
    requires |s| == |keys| && key in keys && !Present(s, key) && SlotsDistinct(s)
    requires forall i :: 0 <= i < |s| && Filled(s, i) ==> s[i].key in keys
    ensures exists i :: 0 <= i < |s| && !Filled(s, i)
  {
    if forall i :: 0 <= i < |s| ==> Filled(s, i) {
      var held := seq(|s|, i requires 0 <= i < |s| => s[i].key);
      var pool := set k | k in keys;
      forall i, j | 0 <= i < j < |held| ensures held[i] != held[j] {
        assert Filled(s, i) && Filled(s, j);
      }
      forall i | 0 <= i < |held| ensures held[i] in pool - {key} {
        assert Filled(s, i);
      }
      Pigeonhole(held, pool - {key});
      SetOfSeq(keys);
    }
  }

  lemma {:induction false} SetOfSeq<T>(s: seq<T>)
    ensures |set x | x in s| <= |s|
  {
    if s == [] {
      assert (set x | x in s) == {};
    } else {
      var n := |s| - 1;
      SetOfSeq(s[..n]);
      assert (set x | x in s) == (set x | x in s[..n]) + {s[n]};
    }
  }

  /** When every key is present, every slot is used. */
  lemma AllUsed<V>(s: seq<Node<V>>, keys: seq<Key>)
    requires |s| == |keys| && Distinct(keys) && forall key :: key in keys ==> Present(s, key)
    ensures forall i :: 0 <= i < |s| ==> Filled(s, i)
  {
    forall e | 0 <= e < |s| ensures Filled(s, e) {
      if !Filled(s, e) {
        var slots := seq(|keys|, k requires 0 <= k < |keys| => SlotOf(s, keys[k]));
        var pool := Below(|s|) - {e};
        Pigeonhole(slots, pool);
      }
    }
  }

  function Below(n: nat): (r: set<nat>)
    ensures |r| == n && forall i: nat :: i in r <==> i < n
  {
    if n == 0 then {} else Below(n - 1) + {n - 1}
  }

  /** A table as convtable leaves it. */
  ghost predicate Converted<V>(s: seq<Node<V>>, calchash: string -> nat, chains: seq<seq<nat>>,
                                     entries: seq<Entry<V>>, sizearray: nat) {
    && |s| == |HashKeys(entries, sizearray)|
    && SlotsDistinct(s)
    && (forall i :: 0 <= i < |s| ==> Filled(s, i) && SlotOk(s[i], calchash, entries, sizearray))
    && (forall key :: key in HashKeys(entries, sizearray) ==> Present(s, key))
    && (|s| > 0 ==> Chained(s, MainOf(calchash, |s|), chains))
  }

  /** What the second pass keeps: j entries of the source are done. */
  ghost predicate SecondPass<V>(s: seq<Node<V>>, calchash: string -> nat, main: Key -> nat, chains: seq<seq<nat>>,
                                entries: seq<Entry<V>>, sizearray: nat, j: nat)
    requires j <= |entries|
  {
    && SlotsDistinct(s)
    && (forall i :: 0 <= i < |s| ==> SlotOk(s[i], calchash, entries, sizearray))
    && Chained(s, main, chains)
    && (forall k :: 0 <= k < |entries| && !InArray(entries[k].key, sizearray) ==> Heads(s, main, entries[k].key))
    && (forall i :: 0 <= i < |s| && Filled(s, i) && main(s[i].key) != i ==> Among(entries[..j], s[i].key))
    && (forall k :: 0 <= k < j && !InArray(entries[k].key, sizearray) ==> Present(s, entries[k].key))
  }

  /** The main position of the key holds a key that belongs there. */
  predicate Heads<V>(s: seq<Node<V>>, main: Key -> nat, key: Key) {
    main(key) < |s| && Filled(s, main(key)) && main(s[main(key)].key) == main(key)
  }

  predicate Among<V>(entries: seq<Entry<V>>, key: Key) {
    exists k :: 0 <= k < |entries| && entries[k].key == key
  }

  /** A key that is not at its main position is nowhere yet. */
  lemma NotPresent<V>(s: seq<Node<V>>, calchash: string -> nat, main: Key -> nat, chains: seq<seq<nat>>,
                      entries: seq<Entry<V>>, sizearray: nat, j: nat)
    requires j < |entries| && DistinctKeys(entries) && !InArray(entries[j].key, sizearray)
    requires SecondPass(s, calchash, main, chains, entries, sizearray, j)
    requires main(entries[j].key) < |s| && s[main(entries[j].key)].key != entries[j].key
    ensures !Present(s, entries[j].key)
  {
    var key := entries[j].key;
    forall i | 0 <= i < |s| && Filled(s, i) ensures s[i].key != key {
      if main(s[i].key) != i {
        var k :| 0 <= k < j && entries[..j][k].key == s[i].key;
        assert entries[k].key == s[i].key;
      }
    }
  }

  lemma PresentAfter<V>(s: seq<Node<V>>, m: nat, n: nat, node: Node<V>, key: Key)
    requires m < |s| && n < |s| && m != n && !Filled(s, n) && node.value.Some?
    ensures Present(s, key) ==> Present(Behind(s, m, n, node), key)
    ensures Present(Behind(s, m, n, node), node.key)
  {
    var s' := Behind(s, m, n, node);
    if Present(s, key) {
      var i := SlotOf(s, key);
      assert Filled(s', i) && s'[i].key == key;
    }
    assert Filled(s', n) && s'[n].key == node.key;
  }

  lemma Inserted<V>(s: seq<Node<V>>, calchash: string -> nat, main: Key -> nat, chains: seq<seq<nat>>,
                    entries: seq<Entry<V>>, sizearray: nat, j: nat, n: nat, node: Node<V>)
    requires j < |entries| && DistinctKeys(entries) && !InArray(entries[j].key, sizearray)
    requires SecondPass(s, calchash, main, chains, entries, sizearray, j)
    requires !Present(s, entries[j].key)
    requires n < |s| && !Filled(s, n) && node.key == entries[j].key && node.value == Some(entries[j].value)
    requires SlotOk(node, calchash, entries, sizearray)
    ensures var m := main(node.key);
            && m < |s| && m < |chains|
            && SecondPass(Behind(s, m, n, node), calchash, main, chains[m := [m, n] + chains[m][1..]], entries, sizearray, j + 1)
  {
    var key, m := node.key, main(node.key);
    assert Heads(s, main, key);
    assert m in chains[m];
    var s' := Behind(s, m, n, node);
    BehindChained(s, main, chains, m, n, node);
    forall i, k | 0 <= i < k < |s'| && Filled(s', i) && Filled(s', k) ensures s'[i].key != s'[k].key {
      if i != n && k != n { assert Filled(s, i) && Filled(s, k); }
      else if i == n { assert Filled(s, k) && s[k].key == s'[k].key; }
      else { assert Filled(s, i) && s[i].key == s'[i].key; }
    }
    forall i | 0 <= i < |s'| && Filled(s', i) && main(s'[i].key) != i ensures Among(entries[..j + 1], s'[i].key) {
      if i == n {
        assert entries[..j + 1][j].key == key;
      } else {
        var k :| 0 <= k < j && entries[..j][k].key == s[i].key;
        assert entries[..j + 1][k].key == s[i].key;
      }
    }
    forall k | 0 <= k < |entries| && !InArray(entries[k].key, sizearray) ensures Heads(s', main, entries[k].key) {
      assert Heads(s, main, entries[k].key);
    }
    forall k | 0 <= k < j + 1 && !InArray(entries[k].key, sizearray) ensures Present(s', entries[k].key) {
      PresentAfter(s, m, n, node, entries[k].key);
    }
  }

  lemma Skipped<V>(s: seq<Node<V>>, calchash: string -> nat, main: Key -> nat, chains: seq<seq<nat>>,
                   entries: seq<Entry<V>>, sizearray: nat, j: nat)
    requires j < |entries| && SecondPass(s, calchash, main, chains, entries, sizearray, j)
    requires InArray(entries[j].key, sizearray) ||
             (main(entries[j].key) < |s| && s[main(entries[j].key)].key == entries[j].key)
    ensures SecondPass(s, calchash, main, chains, entries, sizearray, j + 1)
  {
    forall i | 0 <= i < |s| && Filled(s, i) && main(s[i].key) != i ensures Among(entries[..j + 1], s[i].key) {
      var k :| 0 <= k < j && entries[..j][k].key == s[i].key;
      assert entries[..j + 1][k].key == s[i].key;
    }
    if !InArray(entries[j].key, sizearray) {
      assert Heads(s, main, entries[j].key);
      assert Present(s, entries[j].key);
    }
  }

  // ---- conversion and lookup ----------------------------------------------------------------------------

  lemma {:induction false} FindPush<V>(entries: seq<Entry<V>>, e: Entry<V>, key: Key)
    ensures Find(entries + [e], key) ==
              if Find(entries, key).Some? then Find(entries, key) else if e.key == key then Some(e.value) else None
  {
    if entries != [] {
      assert (entries + [e])[1..] == entries[1..] + [e];
      FindPush(entries[1..], e, key);
    }
  }

  lemma {:induction false} FindAmong<V>(entries: seq<Entry<V>>, key: Key)
    ensures Find(entries, key).Some? <==> Among(entries, key)
  {
    if entries != [] {
      FindAmong(entries[1..], key);
      if Among(entries, key) && entries[0].key != key {
        var k :| 0 <= k < |entries| && entries[k].key == key;
        assert entries[1..][k - 1].key == key;
      }
      if Among(entries[1..], key) {
        var k :| 0 <= k < |entries[1..]| && entries[1..][k].key == key;
        assert entries[k + 1].key == key;
      }
      assert entries[0].key == key ==> Among(entries, key);
    }
  }

  /** struct table; the last two fields say what it was made from and how it is linked. */
  class Table<V> {
    const calchash: string -> nat
    var sizearray: nat
    var sizehash: nat
    var arr: array<Option<V>>
    var hash: array<Node<V>>
    ghost var Source: seq<Entry<V>>
    ghost var Chains: seq<seq<nat>>

    ghost predicate Shape()
      reads this
    {
      arr.Length == sizearray && hash.Length == sizehash
    }

    /** The array part after j entries of the source. */
    ghost predicate ArrayDone(entries: seq<Entry<V>>, j: nat)
      requires j <= |entries|
      reads this, arr
    {
      arr.Length == sizearray &&
      forall i :: 0 <= i < sizearray ==> arr[i] == Find(entries[..j], IntKey(i + 1))
    }

    ghost predicate Valid()
      reads this, arr, hash
    {
      && Shape() && SourceOk(Source)
      && ArrayDone(Source, |Source|)
      && Converted(hash[..], calchash, Chains, Source, sizearray)
    }

    /** countsize */
    static method CountSize(entries: seq<Entry<V>>, sizearray: nat) returns (n: nat)
      ensures n == |HashKeys(entries, sizearray)|
    {
      n := 0;
      var k := 0;
      while k < |entries|
        invariant 0 <= k <= |entries| && n == |HashKeys(entries[..k], sizearray)|
      {
        assert entries[..k + 1][..k] == entries[..k];
        if !InArray(entries[k].key, sizearray) {
          n := n + 1;
        }
        k := k + 1;
      }
      assert entries[..k] == entries;
    }

    /** What one entry of the source does to the array part: setarray, or nothing. */
    method SetArray(entries: seq<Entry<V>>, j: nat)
      requires Shape() && j < |entries| && DistinctKeys(entries) && ArrayDone(entries, j)
      modifies arr
      ensures ArrayDone(entries, j + 1)
    {
      var e := entries[j];
      assert entries[..j + 1] == entries[..j] + [e];
      forall key: Key
        ensures Find(entries[..j + 1], key) == if e.key == key then Some(e.value) else Find(entries[..j], key)
      {
        FindPush(entries[..j], e, key);
        FindAmong(entries[..j], key);
      }
      if InArray(e.key, sizearray) {
        arr[e.key.i - 1] := Some(e.value);
      }
    }

    /** fillnocolliding: the array part, and in the hash part the first key of each slot. */
    method FillNoColliding(entries: seq<Entry<V>>)
      requires Shape() && SourceOk(entries) && sizehash > 0
      requires ArrayDone(entries, 0)
      requires forall i :: 0 <= i < sizehash ==> hash[i].value == None
      modifies arr, hash
      ensures ArrayDone(entries, |entries|)
      ensures forall i :: 0 <= i < sizehash ==> SlotOk(hash[i], calchash, entries, sizearray)
      ensures FirstPass(hash[..], MainOf(calchash, sizehash), entries, sizearray, |entries|)
    {
      var j := 0;
      while j < |entries|
        invariant 0 <= j <= |entries| && ArrayDone(entries, j)
        invariant FirstPassAt(entries, j)
      {
        SetArray(entries, j);
        FillFirst(entries, j);
        j := j + 1;
      }
    }

    ghost predicate FirstPassAt(entries: seq<Entry<V>>, j: nat)
      requires j <= |entries|
      reads this, hash
    {
      && Shape() && sizehash > 0
      && (forall i :: 0 <= i < sizehash ==> SlotOk(hash[i], calchash, entries, sizearray))
      && FirstPass(hash[..], MainOf(calchash, sizehash), entries, sizearray, j)
    }

    /** What one entry does to the hash part in the first pass. */
    method FillFirst(entries: seq<Entry<V>>, j: nat)
      requires SourceOk(entries) && j < |entries| && FirstPassAt(entries, j)
      modifies hash
      ensures FirstPassAt(entries, j + 1)
    {
      var key := entries[j].key;
      if !InArray(key, sizearray) {
        ghost var before := hash[..];
        var keyhash := KeyHash(calchash, key);
        var m := MainOf(calchash, sizehash)(key);
        if hash[m].value == None {
          FindAt(entries, j);
          hash[m] := Node(Some(entries[j].value), key, -1, keyhash, true);
        }
        assert forall i :: 0 <= i < sizehash && i != m ==> hash[i] == before[i];
      }
    }

    /** The search for an empty slot in fillcolliding: it never fails. */
    method EmptySlot(entries: seq<Entry<V>>, key: Key, emptyslot: nat) returns (n: nat)
      requires Shape() && SlotsDistinct(hash[..]) && DistinctKeys(entries)
      requires sizehash == |HashKeys(entries, sizearray)|
      requires forall i :: 0 <= i < sizehash ==> SlotOk(hash[i], calchash, entries, sizearray)
      requires Among(entries, key) && !InArray(key, sizearray) && !Present(hash[..], key)
      requires emptyslot <= sizehash && forall i :: 0 <= i < emptyslot ==> hash[i].value.Some?
      ensures emptyslot <= n < sizehash && hash[n].value == None
      ensures forall i :: 0 <= i < n ==> hash[i].value.Some?
    {
      n := emptyslot;
      while n < sizehash && hash[n].value.Some?
        invariant emptyslot <= n <= sizehash
        invariant forall i :: 0 <= i < n ==> hash[i].value.Some?
      {
        n := n + 1;
      }
      ghost var keys := HashKeys(entries, sizearray);
      HashKeysAre(entries, sizearray);
      forall i | 0 <= i < sizehash && Filled(hash[..], i) ensures hash[..][i].key in keys {
        FindAmong(entries, hash[i].key);
      }
      RoomLeft(hash[..], keys, key);
      ghost var e :| 0 <= e < |hash[..]| && !Filled(hash[..], e);
      assert hash[e].value == None;
    }

    ghost predicate SecondPassAt(entries: seq<Entry<V>>, j: nat)
      requires j <= |entries|
      reads this, hash
    {
      && Shape() && sizehash > 0
      && SecondPass(hash[..], calchash, MainOf(calchash, sizehash), Chains, entries, sizearray, j)
    }

    ghost predicate FilledTo(n: nat)
      reads this, hash
    {
      n <= hash.Length && forall i :: 0 <= i < n ==> hash[i].value.Some?
    }

    /** Writes node into the empty slot n, behind main position m. */
    method Link(m: nat, n: nat, node: Node<V>)
      requires Shape() && m < sizehash && n < sizehash && m != n
      modifies hash
      ensures hash[..] == Behind(old(hash[..]), m, n, node)
    {
      hash[n] := node.(next := hash[m].next, nocolliding := false);
      hash[m] := hash[m].(next := n, nocolliding := false);
    }

    /** fillcolliding, for a key that is not at its main position. */
    method PutBehind(entries: seq<Entry<V>>, j: nat, emptyslot: nat) returns (n: nat)
      requires SourceOk(entries) && j < |entries| && !InArray(entries[j].key, sizearray)
      requires SecondPassAt(entries, j) && sizehash == |HashKeys(entries, sizearray)|
      requires hash[MainOf(calchash, sizehash)(entries[j].key)].key != entries[j].key
      requires FilledTo(emptyslot)
      modifies hash, this`Chains
      ensures n < sizehash && FilledTo(n + 1)
      ensures SecondPassAt(entries, j + 1)
    {
      NotPresent(hash[..], calchash, MainOf(calchash, sizehash), Chains, entries, sizearray, j);
      n := EmptySlot(entries, entries[j].key, emptyslot);
      Enter(entries, j, n);
    }

    /** Enters the key of entry j into the empty slot n. */
    method Enter(entries: seq<Entry<V>>, j: nat, n: nat)
      requires SourceOk(entries) && j < |entries| && !InArray(entries[j].key, sizearray)
      requires SecondPassAt(entries, j) && !Present(hash[..], entries[j].key)
      requires n < sizehash && hash[n].value == None && FilledTo(n)
      modifies hash, this`Chains
      ensures FilledTo(n + 1) && SecondPassAt(entries, j + 1)
    {
      ghost var s := hash[..];
      var key := entries[j].key;
      var m := MainOf(calchash, sizehash)(key);
      FindAt(entries, j);
      assert Heads(s, MainOf(calchash, sizehash), key);
      var node := Node(Some(entries[j].value), key, -1, KeyHash(calchash, key), false);
      Inserted(s, calchash, MainOf(calchash, sizehash), Chains, entries, sizearray, j, n, node);
      Link(m, n, node);
      assert forall i :: 0 <= i <= n ==> hash[i] == hash[..][i];
      Chains := Chains[m := [m, n] + Chains[m][1..]];
    }

    method FillOne(entries: seq<Entry<V>>, j: nat, emptyslot: nat) returns (next: nat)
      requires SourceOk(entries) && j < |entries|
      requires SecondPassAt(entries, j) && sizehash == |HashKeys(entries, sizearray)| && FilledTo(emptyslot)
      modifies hash, this`Chains
      ensures SecondPassAt(entries, j + 1) && FilledTo(next)
    {
      next := emptyslot;
      var key := entries[j].key;
      if !InArray(key, sizearray) && hash[MainOf(calchash, sizehash)(key)].key != key {
        next := PutBehind(entries, j, emptyslot);
        next := next + 1;
      } else {
        Skipped(hash[..], calchash, MainOf(calchash, sizehash), Chains, entries, sizearray, j);
      }
    }

    ghost method StartSecondPass(entries: seq<Entry<V>>)
      requires Shape() && SourceOk(entries) && sizehash > 0
      requires forall i :: 0 <= i < sizehash ==> SlotOk(hash[i], calchash, entries, sizearray)
      requires FirstPass(hash[..], MainOf(calchash, sizehash), entries, sizearray, |entries|)
      modifies this`Chains
      ensures SecondPassAt(entries, 0)
    {
      ghost var s, main := hash[..], MainOf(calchash, sizehash);
      FirstIsSecond(s, calchash, main, entries, sizearray);
      Chains := FirstChains(s);
      assert hash[..] == s;
    }

    /** fillcolliding: every other key goes behind its main position. */
    method FillColliding(entries: seq<Entry<V>>)
      requires SourceOk(entries) && SecondPassAt(entries, 0) && sizehash == |HashKeys(entries, sizearray)|
      modifies hash, this`Chains
      ensures SecondPassAt(entries, |entries|)
    {
      var emptyslot, j := 0, 0;
      while j < |entries|
        invariant 0 <= j <= |entries|
        invariant SecondPassAt(entries, j) && FilledTo(emptyslot)
      {
        emptyslot := FillOne(entries, j, emptyslot);
        j := j + 1;
      }
    }

    /** convtable, for a source table with the given lua_rawlen. */
    constructor Convert(calchash: string -> nat, entries: seq<Entry<V>>, sizearray: nat)
      requires SourceOk(entries)
      ensures Valid() && Source == entries && this.sizearray == sizearray && this.calchash == calchash
      ensures fresh(arr) && fresh(hash)
    {
      var n := CountSize(entries, sizearray);
      this.calchash, this.sizearray, sizehash := calchash, sizearray, n;
      arr := new Option<V>[sizearray](_ => None);
      hash := new Node<V>[n](_ => Node(None, IntKey(0), -1, 0, false));
      Source, Chains := entries, [];
      new;
      if sizehash > 0 {
        FillHash(entries);
      } else {
        FillArray(entries);
      }
    }

    /** Both passes. */
    method FillHash(entries: seq<Entry<V>>)
      requires Shape() && SourceOk(entries) && sizehash > 0 && sizehash == |HashKeys(entries, sizearray)|
      requires ArrayDone(entries, 0)
      requires forall i :: 0 <= i < sizehash ==> hash[i].value == None
      modifies arr, hash, this`Chains
      ensures ArrayDone(entries, |entries|)
      ensures Converted(hash[..], calchash, Chains, entries, sizearray)
    {
      FillNoColliding(entries);
      StartSecondPass(entries);
      FillColliding(entries);
      AllConverted(hash[..], calchash, Chains, entries, sizearray);
    }

    /** The array part of a table without hash part. */
    method FillArray(entries: seq<Entry<V>>)
      requires Shape()
      modifies arr
      ensures ArrayDone(entries, |entries|)
    {
      var i := 1;
      while i <= sizearray
        invariant 1 <= i <= sizearray + 1
        invariant forall k :: 0 <= k < i - 1 ==> arr[k] == Find(entries, IntKey(k + 1))
      {
        arr[i - 1] := Find(entries, IntKey(i));
        i := i + 1;
      }
      assert entries[..|entries|] == entries;
    }

    /** lookup_key: a key of the hash part is found in its slot, and no other key is found. */
    method LookupKey(key: Key) returns (r: Option<nat>)
      requires Valid()
      ensures r.Some? ==> r.value < sizehash && hash[r.value].key == key
      ensures r == None ==> !Present(hash[..], key)
    {
      if sizehash == 0 {
        return None;
      }
      var keyhash := KeyHash(calchash, key);
      var n := MainOf(calchash, sizehash)(key);
      ghost var c, t := StartOfWalk(hash[..], MainOf(calchash, sizehash), Chains, key, n);
      HashesRight(key);
      assert WalkOk(hash[..], c, t);
      if keyhash != hash[n].keyhash && hash[n].nocolliding {
        NextOnChain(hash[..], c, t, key);
        return None;
      }
      r := Walk(key, keyhash, n, c, t);
    }

    lemma HashesRight(key: Key)
      requires Valid()
      ensures forall i :: 0 <= i < sizehash && hash[i].key == key ==> hash[i].keyhash == KeyHash(calchash, key)
    {
      forall i | 0 <= i < sizehash ensures hash[i].keyhash == KeyHash(calchash, hash[i].key) {
        assert SlotOk(hash[..][i], calchash, Source, sizearray);
      }
    }

    /** The loop of lookup_key, from slot start, which is at place t of the chain c. */
    method Walk(key: Key, keyhash: nat, start: nat, ghost c: seq<nat>, ghost at: nat) returns (r: Option<nat>)
      requires Shape() && Walkable(hash[..], c) && at < |c| && c[at] == start
      requires forall i :: 0 <= i < sizehash && hash[i].key == key ==> hash[i].keyhash == keyhash
      ensures r.Some? ==> r.value < sizehash && hash[r.value].key == key
      ensures r == None ==> !OnChain(hash[..], c, at, key)
    {
      var n := start;
      ghost var t := at;
      assert WalkOk(hash[..], c, t);
      while true
        invariant at <= t < |c| && c[t] == n < sizehash
        invariant OnChain(hash[..], c, at, key) ==> OnChain(hash[..], c, t, key)
        decreases |c| - t
      {
        if keyhash == hash[n].keyhash && hash[n].key == key {
          return Some(n);
        }
        NextOnChain(hash[..], c, t, key);
        assert WalkOk(hash[..], c, t);
        if hash[n].next < 0 {
          return None;
        }
        n := hash[n].next;
        t := t + 1;
        assert WalkOk(hash[..], c, t);
      }
    }

    lemma FoundIs(n: nat)
      requires Valid() && n < sizehash
      ensures hash[n].value == Find(Source, hash[n].key) && hash[n].value.Some? && !InArray(hash[n].key, sizearray)
    {
      assert Filled(hash[..], n) && SlotOk(hash[..][n], calchash, Source, sizearray);
    }

    lemma NotFoundIs(key: Key)
      requires Valid() && !InArray(key, sizearray) && !Present(hash[..], key)
      ensures Find(Source, key) == None
    {
      HashKeysAre(Source, sizearray);
      FindAmong(Source, key);
    }

    /** lindexconf: the copy answers every key as the source table does. */
    method IndexConf(key: Key) returns (v: Option<V>)
      requires Valid()
      ensures v == Find(Source, key)
    {
      if InArray(key, sizearray) {
        assert Source[..|Source|] == Source;
        return arr[key.i - 1];
      }
      var n := LookupKey(key);
      match n {
        case Some(i) =>
          FoundIs(i);
          v := hash[i].value;
        case None =>
          NotFoundIs(key);
          v := None;
      }
    }

    /** lindexconf with a lua_Integer, which is cut down to an int first. */
    method IndexInteger(k: int) returns (v: Option<V>)
      requires Valid()
      ensures v == Find(Source, IntKey(ToInt(k)))
      ensures v == Find(Source, IntKey(k)) <==> KeyOk(IntKey(k)) || !Among(Source, IntKey(ToInt(k)))
    {
      IntegerLookupExact(Source, k);
      v := IndexConf(IntKey(ToInt(k)));
    }

    // ---- iteration -------------------------------------------------------------------------

    /** The keys that a walk with lnextkey still visits after the given key, in order. */
    ghost function After(key: Option<Key>): seq<Key>
      requires Shape()
      reads this, arr, hash
    {
      AfterIn(arr[..], hash[..], key)
    }

    /** A key and what comes after it. */
    ghost function From(key: Option<Key>): seq<Key>
      requires Shape()
      reads this, arr, hash
    {
      if key == None then [] else [key.value] + After(key)
    }

    /** The key of slot n, if there is such a slot. */
    function SlotKey(n: nat): Option<Key>
      requires hash.Length == sizehash
      reads this, hash
    {
      if n < sizehash then Some(hash[n].key) else None
    }

    /** The first key of the array part from index i on, then pushfirsthash. */
    method FirstKey(i: nat) returns (r: Option<Key>)
      requires Valid() && i <= sizearray
      ensures ArrayKeys(arr[..], i) + SlotKeys(hash[..], 0) == From(r)
    {
      var k := i;
      while k < sizearray
        invariant i <= k <= sizearray && ArrayKeys(arr[..], i) == ArrayKeys(arr[..], k)
      {
        if arr[k].Some? {
          Assoc([IntKey(k + 1)], ArrayKeys(arr[..], k + 1), SlotKeys(hash[..], 0));
          return Some(IntKey(k + 1));
        }
        k := k + 1;
      }
      if sizehash > 0 {
        r := Some(hash[0].key);
        AfterSlot(0);
      } else {
        r := None;
      }
    }

    lemma AfterSlot(n: nat)
      requires Valid() && n < sizehash
      ensures After(Some(hash[n].key)) == SlotKeys(hash[..], n + 1)
    {
      FoundIs(n);
      AfterSlotIn(arr[..], hash[..], n);
    }

    /** lnextkey */
    method NextKey(key: Option<Key>) returns (r: Option<Key>)
      requires Valid()
      ensures After(key) == From(r)
    {
      if key == None {
        r := FirstKey(0);
      } else if InArray(key.value, sizearray) {
        r := FirstKey(key.value.i);
      } else {
        r := NextSlotKey(key.value);
      }
    }

    /** lnextkey in the hash part. */
    method NextSlotKey(key: Key) returns (r: Option<Key>)
      requires Valid() && !InArray(key, sizearray)
      ensures After(Some(key)) == From(r)
    {
      var n := LookupKey(key);
      AfterLookup(key, n);
      r := KeyAfter(n);
    }

    /** The key of the slot after the one that was found, if both are there. */
    function KeyAfter(n: Option<nat>): Option<Key>
      requires hash.Length == sizehash
      reads this, hash
    {
      if n == None then None else SlotKey(n.value + 1)
    }

    lemma AfterLookup(key: Key, n: Option<nat>)
      requires Valid() && !InArray(key, sizearray)
      requires if n == None then !Present(hash[..], key) else n.value < sizehash && hash[n.value].key == key
      ensures After(Some(key)) == From(KeyAfter(n))
    {
      if n == None {
        AfterAbsent(key);
      } else {
        AfterFound(key, n.value);
      }
    }

    lemma AfterAbsent(key: Key)
      requires Shape() && !InArray(key, sizearray) && !Present(hash[..], key)
      ensures After(Some(key)) == []
    {
    }

    lemma AfterFound(key: Key, n: nat)
      requires Valid() && n < sizehash && hash[n].key == key
      ensures After(Some(key)) == From(SlotKey(n + 1))
    {
      SlotUsable(n);
      if n + 1 < sizehash {
        SlotUsable(n + 1);
      }
      NextSlotIn(arr[..], hash[..], n);
    }

    lemma SlotUsable(n: nat)
      requires Valid() && n < sizehash
      ensures SlotsDistinct(hash[..]) && Usable(arr[..], hash[..], n) && hash[..][n] == hash[n]
    {
    }

    /** Walking with lnextkey visits every key of the source exactly once. */
    method AllKeys() returns (keys: seq<Key>)
      requires Valid()
      ensures Distinct(keys) && forall key :: key in keys <==> Find(Source, key).Some?
    {
      keys := WalkKeys();
      VisitsAll();
    }

    method WalkKeys() returns (keys: seq<Key>)
      requires Valid()
      ensures keys == After(None)
    {
      keys := [];
      var key := NextKey(None);
      while key != None
        invariant After(None) == keys + From(key)
        decreases if key == None then 0 else |After(key)| + 1
      {
        Assoc(keys, [key.value], After(key));
        keys := keys + [key.value];
        key := NextKey(key);
      }
      assert keys + [] == keys;
    }

    lemma VisitsAll()
      requires Valid()
      ensures Distinct(After(None)) && forall key :: key in After(None) <==> Find(Source, key).Some?
    {
      var a, h := ArrayKeys(arr[..], 0), SlotKeys(hash[..], 0);
      ArrayKeysAre(arr[..], 0);
      SlotKeysAre(hash[..], 0);
      forall n | 0 <= n < sizehash ensures Find(Source, hash[n].key).Some? && !InArray(hash[n].key, sizearray) {
        FoundIs(n);
      }
      assert Source[..|Source|] == Source;
      forall key ensures key in a + h <==> Find(Source, key).Some? {
        if InArray(key, sizearray) {
          assert arr[key.i - 1] == Find(Source, IntKey(key.i - 1 + 1));
        } else if Find(Source, key).Some? {
          if !Present(hash[..], key) { NotFoundIs(key); }
        }
      }
    }
  }

  function ArrayKeys<V>(a: seq<Option<V>>, i: nat): seq<Key>
    requires i <= |a|
    decreases |a| - i
  {
    if i == |a| then []
    else if a[i].Some? then [IntKey(i + 1)] + ArrayKeys(a, i + 1)
    else ArrayKeys(a, i + 1)
  }

  lemma {:induction false} ArrayKeysAre<V>(a: seq<Option<V>>, i: nat)
    requires i <= |a|
    ensures Distinct(ArrayKeys(a, i))
    ensures forall key :: key in ArrayKeys(a, i) <==> key.IntKey? && i < key.i <= |a| && a[key.i - 1].Some?
    decreases |a| - i
  {
    if i < |a| {
      ArrayKeysAre(a, i + 1);
    }
  }

  /** The keys of the slots from n on. */
  function SlotKeys<V>(s: seq<Node<V>>, n: nat): (r: seq<Key>)
    requires n <= |s|
    ensures |r| == |s| - n && forall i :: 0 <= i < |r| ==> r[i] == s[n + i].key
    decreases |s| - n
  {
    if n == |s| then [] else [s[n].key] + SlotKeys(s, n + 1)
  }

  ghost function AfterIn<V>(a: seq<Option<V>>, s: seq<Node<V>>, key: Option<Key>): seq<Key> {
    if key == None then ArrayKeys(a, 0) + SlotKeys(s, 0)
    else if InArray(key.value, |a|) then ArrayKeys(a, key.value.i) + SlotKeys(s, 0)
    else if Present(s, key.value) then SlotKeys(s, SlotOf(s, key.value) + 1)
    else []
  }

  lemma AfterSlotIn<V>(a: seq<Option<V>>, s: seq<Node<V>>, n: nat)
    requires n < |s| && SlotsDistinct(s) && Filled(s, n) && !InArray(s[n].key, |a|)
    ensures AfterIn(a, s, Some(s[n].key)) == SlotKeys(s, n + 1)
  {
    var i := SlotOf(s, s[n].key);
  }

  predicate Usable<V>(a: seq<Option<V>>, s: seq<Node<V>>, n: nat) {
    n < |s| && Filled(s, n) && !InArray(s[n].key, |a|)
  }

  lemma NextSlotIn<V>(a: seq<Option<V>>, s: seq<Node<V>>, n: nat)
    requires SlotsDistinct(s) && Usable(a, s, n) && (n + 1 < |s| ==> Usable(a, s, n + 1))
    ensures AfterIn(a, s, Some(s[n].key)) ==
              if n + 1 == |s| then [] else [s[n + 1].key] + AfterIn(a, s, Some(s[n + 1].key))
  {
    AfterSlotIn(a, s, n);
    if n + 1 < |s| {
      AfterSlotIn(a, s, n + 1);
    }
  }

  lemma SlotKeysAre<V>(s: seq<Node<V>>, n: nat)
    requires n <= |s| && SlotsDistinct(s) && forall i :: 0 <= i < |s| ==> Filled(s, i)
    ensures Distinct(SlotKeys(s, n))
    ensures forall key :: key in SlotKeys(s, 0) <==> Present(s, key)
  {
    forall i, j | 0 <= i < j < |SlotKeys(s, n)| ensures SlotKeys(s, n)[i] != SlotKeys(s, n)[j] {
      assert Filled(s, n + i) && Filled(s, n + j);
    }
    forall key ensures key in SlotKeys(s, 0) <==> Present(s, key) {
      if Present(s, key) {
        assert SlotKeys(s, 0)[SlotOf(s, key)] == key;
      }
      if key in SlotKeys(s, 0) {
        var i :| 0 <= i < |s| && SlotKeys(s, 0)[i] == key;
        assert Filled(s, i) && s[i].key == key;
      }
    }
  }

  /** Looking up any lua_Integer answers as the source does if and only if the integer fits
      an int, or the source has no entry for the int that is left of it. */
  lemma IntegerLookupExact<V>(entries: seq<Entry<V>>, k: int)
    requires SourceOk(entries)
    ensures Find(entries, IntKey(ToInt(k))) == Find(entries, IntKey(k)) <==>
              KeyOk(IntKey(k)) || !Among(entries, IntKey(ToInt(k)))
  {
    FindAmong(entries, IntKey(ToInt(k)));
    if !KeyOk(IntKey(k)) {
      FindNone(entries, IntKey(k));
    }
  }

  /** It does fail: a table with the key 1 alone answers for 2^32 + 1. */
  lemma IntegerLookupFails<V>(v: V)
    ensures var entries := [Entry(IntKey(1), v)];
            && SourceOk(entries)
            && Find(entries, IntKey(ToInt(0x1_0000_0001))) == Some(v)
            && Find(entries, IntKey(0x1_0000_0001)) == None
  {
    var entries := [Entry(IntKey(1), v)];
    DivUnique(0x1_0000_0001, 0x1_0000_0000, 1, 1);
    FindAt(entries, 0);
    FindNone(entries, IntKey(0x1_0000_0001));
  }

  lemma AllConverted<V>(s: seq<Node<V>>, calchash: string -> nat, chains: seq<seq<nat>>, entries: seq<Entry<V>>, sizearray: nat)
    requires SourceOk(entries) && |s| == |HashKeys(entries, sizearray)| > 0
    requires SecondPass(s, calchash, MainOf(calchash, |s|), chains, entries, sizearray, |entries|)
    ensures Converted(s, calchash, chains, entries, sizearray)
  {
    var keys := HashKeys(entries, sizearray);
    HashKeysAre(entries, sizearray);
    forall key | key in keys ensures Present(s, key) {
      var k :| 0 <= k < |entries| && entries[k].key == key;
    }
    AllUsed(s, keys);
  }

  /** The key is among the slots of c from place t on. */
  predicate OnChain<V>(s: seq<Node<V>>, c: seq<nat>, t: nat, key: Key) {
    exists u :: t <= u < |c| && c[u] < |s| && s[c[u]].key == key
  }

  predicate WalkOk<V>(s: seq<Node<V>>, c: seq<nat>, t: nat)
    requires t < |c|
  {
    && c[t] < |s|
    && s[c[t]].next == (if t + 1 < |c| then c[t + 1] else -1)
    && s[c[t]].nocolliding == (|c| == 1)
  }

  predicate Walkable<V>(s: seq<Node<V>>, c: seq<nat>) {
    forall t :: 0 <= t < |c| ==> WalkOk(s, c, t)
  }

  lemma NextOnChain<V>(s: seq<Node<V>>, c: seq<nat>, t: nat, key: Key)
    requires t < |c| && c[t] < |s| && s[c[t]].key != key
    ensures OnChain(s, c, t, key) ==> OnChain(s, c, t + 1, key) && t + 1 < |c|
  {
  }

  /** The chain c that a lookup walks, and the place t on it where the walk starts: a key
      that is present is there from t on. */
  ghost method StartOfWalk<V>(s: seq<Node<V>>, main: Key -> nat, chains: seq<seq<nat>>, key: Key, n: nat)
    returns (c: seq<nat>, t: nat)
    requires Chained(s, main, chains) && n < |s| && Filled(s, n) && n == main(key)
    ensures t < |c| && c[t] == n && Walkable(s, c)
    ensures Present(s, key) ==> OnChain(s, c, t, key)
    ensures |c| == 1 ==> t == 0
  {
    var m := main(s[n].key);
    c := chains[m];
    t :| 0 <= t < |c| && c[t] == n;
    assert ChainOk(s, main, c, m);
    forall u | 0 <= u < |c| ensures WalkOk(s, c, u) {
      assert LinkOk(s, main, c, m, u);
    }
    if Present(s, key) {
      var i := SlotOf(s, key);
      assert i in chains[n];
      var u :| 0 <= u < |chains[n]| && chains[n][u] == i;
      assert LinkOk(s, main, chains[n], n, 0);
      assert m == n && c[0] == n && t == 0;
    }
  }

  lemma FirstIsSecond<V>(s: seq<Node<V>>, calchash: string -> nat, main: Key -> nat, entries: seq<Entry<V>>, sizearray: nat)
    requires forall i :: 0 <= i < |s| ==> SlotOk(s[i], calchash, entries, sizearray)
    requires FirstPass(s, main, entries, sizearray, |entries|)
    ensures SecondPass(s, calchash, main, FirstChains(s), entries, sizearray, 0)
  {
    FirstChained(s, main, entries, sizearray);
  }
}
