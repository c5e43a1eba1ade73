/** The names of handles (skynet_handle.c): an array kept sorted, searched by halving.
    Every method is what the source does while it holds the table's lock. */
module HandleNames {
  import opened Prelude

  datatype Named = Named(name: string, handle: nat)

  // ---- strcmp ------------------------------------------------------------------------------

  function Strcmp(a: string, b: string): int {
    if a == [] && b == [] then 0
    else if a == [] then -1
    else if b == [] then 1
    else if a[0] < b[0] then -1
    else if a[0] > b[0] then 1
    else Strcmp(a[1..], b[1..])
  }

  lemma {:induction false} StrcmpZero(a: string, b: string)
    ensures Strcmp(a, b) == 0 <==> a == b
  {
    if a != [] && b != [] && a[0] == b[0] {
      StrcmpZero(a[1..], b[1..]);
      assert a == [a[0]] + a[1..] && b == [b[0]] + b[1..];
    }
  }

  lemma {:induction false} StrcmpTrans(a: string, b: string, c: string)
    requires Strcmp(a, b) < 0 && Strcmp(b, c) < 0
    ensures Strcmp(a, c) < 0
  {
    if a != [] && b != [] && c != [] && a[0] == b[0] && b[0] == c[0] {
      StrcmpTrans(a[1..], b[1..], c[1..]);
    }
  }

  lemma {:induction false} StrcmpFlip(a: string, b: string)
    ensures Strcmp(a, b) > 0 <==> Strcmp(b, a) < 0
  {
    if a != [] && b != [] && a[0] == b[0] {
      StrcmpFlip(a[1..], b[1..]);
    }
  }

  // ---- the sorted array, as a sequence and as a map ------------------------------------------

  predicate Before(a: Named, b: Named) { Strcmp(a.name, b.name) < 0 }

  predicate Sorted(s: seq<Named>) {
    forall i, j :: 0 <= i < j < |s| ==> Before(s[i], s[j])
  }

  /** The names with their handles. */
  function NameMap(s: seq<Named>): map<string, nat> {
    if s == [] then map[] else NameMap(s[..|s| - 1])[s[|s| - 1].name := s[|s| - 1].handle]
  }

  lemma {:induction false} NameMapHas(s: seq<Named>, name: string)
    requires Sorted(s)
    ensures name in NameMap(s) <==> exists i :: 0 <= i < |s| && s[i].name == name
    ensures forall i :: 0 <= i < |s| && s[i].name == name ==> NameMap(s)[name] == s[i].handle
  {
    if s != [] {
      var n := |s| - 1;
      NameMapHas(s[..n], name);
      forall i | 0 <= i < n ensures s[i].name != s[n].name {
        assert Before(s[i], s[n]);
        StrcmpZero(s[i].name, s[n].name);
      }
      if name in NameMap(s[..n]) {
        var i :| 0 <= i < n && s[..n][i].name == name;
        assert s[i].name == name;
      }
      forall i | 0 <= i < n && s[i].name == name ensures NameMap(s)[name] == s[i].handle {
        assert s[..n][i] == s[i];
      }
    }
  }

  lemma SameName(m: map<string, nat>, s: seq<Named>, name: string)
    requires Sorted(s)
    requires forall i :: 0 <= i < |s| ==> s[i].name in m && m[s[i].name] == s[i].handle
    requires name in m ==> exists i :: 0 <= i < |s| && s[i].name == name
    ensures name in NameMap(s) <==> name in m
    ensures name in m ==> NameMap(s)[name] == m[name]
  {
    NameMapHas(s, name);
  }

  /** A map with exactly the entries of a sorted sequence is its map. */
  lemma SameMap(m: map<string, nat>, s: seq<Named>)
    requires Sorted(s)
    requires forall i :: 0 <= i < |s| ==> s[i].name in m && m[s[i].name] == s[i].handle
    requires forall name :: name in m ==> exists i :: 0 <= i < |s| && s[i].name == name
    ensures NameMap(s) == m
  {
    forall name: string
      ensures name in NameMap(s) <==> name in m
      ensures name in m ==> name in NameMap(s) && NameMap(s)[name] == m[name]
    {
      SameName(m, s, name);
    }
    assert NameMap(s).Keys == m.Keys;
  }

  function Inserted(s: seq<Named>, p: nat, e: Named): seq<Named>
    requires p <= |s|
  {
    s[..p] + [e] + s[p..]
  }

  lemma InsertedAt(s: seq<Named>, p: nat, e: Named, k: nat)
    requires p <= |s| && k <= |s|
    ensures |Inserted(s, p, e)| == |s| + 1
    ensures Inserted(s, p, e)[k] == if k < p then s[k] else if k == p then e else s[k - 1]
  {
  }

  lemma InsertedSorted(s: seq<Named>, p: nat, e: Named)
    requires Sorted(s) && p <= |s|
    requires forall i :: 0 <= i < p ==> Before(s[i], e)
    requires forall i :: p <= i < |s| ==> Before(e, s[i])
    ensures Sorted(Inserted(s, p, e))
  {
    var t := Inserted(s, p, e);
    forall i, j | 0 <= i < j < |t| ensures Before(t[i], t[j]) {
      InsertedAt(s, p, e, i);
      InsertedAt(s, p, e, j);
    }
  }

  lemma InsertedIn(s: seq<Named>, p: nat, e: Named, m: map<string, nat>, k: nat)
    requires Sorted(s) && p <= |s| && k <= |s|
    requires m == NameMap(s)[e.name := e.handle]
    requires forall i :: 0 <= i < |s| ==> s[i].name != e.name
    ensures var t := Inserted(s, p, e); t[k].name in m && m[t[k].name] == t[k].handle
  {
    InsertedAt(s, p, e, k);
    if k != p { NameMapHas(s, Inserted(s, p, e)[k].name); }
  }

  lemma InsertedAll(s: seq<Named>, p: nat, e: Named, name: string)
    requires Sorted(s) && p <= |s| && (name == e.name || name in NameMap(s))
    ensures exists k :: 0 <= k < |Inserted(s, p, e)| && Inserted(s, p, e)[k].name == name
  {
    InsertedAt(s, p, e, p);
    if name != e.name {
      NameMapHas(s, name);
      var i :| 0 <= i < |s| && s[i].name == name;
      InsertedAt(s, p, e, if i < p then i else i + 1);
    }
  }

  lemma InsertedMap(s: seq<Named>, p: nat, e: Named)
    requires Sorted(s) && p <= |s| && Sorted(Inserted(s, p, e))
    requires forall i :: 0 <= i < |s| ==> s[i].name != e.name
    ensures e.name !in NameMap(s) && NameMap(Inserted(s, p, e)) == NameMap(s)[e.name := e.handle]
  {
    var t := Inserted(s, p, e);
    var m := NameMap(s)[e.name := e.handle];
    NameMapHas(s, e.name);
    forall k | 0 <= k < |t| ensures t[k].name in m && m[t[k].name] == t[k].handle {
      InsertedIn(s, p, e, m, k);
    }
    forall name | name in m ensures exists k :: 0 <= k < |t| && t[k].name == name {
      InsertedAll(s, p, e, name);
    }
    SameMap(m, t);
  }

  /** A new name goes where the search ended. */
  lemma InsertedIs(s: seq<Named>, p: nat, e: Named)
    requires Sorted(s) && p <= |s|
    requires forall i :: 0 <= i < p ==> Before(s[i], e)
    requires forall i :: p <= i < |s| ==> Before(e, s[i])
    ensures Sorted(Inserted(s, p, e)) && e.name !in NameMap(s)
    ensures NameMap(Inserted(s, p, e)) == NameMap(s)[e.name := e.handle]
  {
    InsertedSorted(s, p, e);
    forall i | 0 <= i < |s| ensures s[i].name != e.name {
      StrcmpZero(s[i].name, e.name);
      StrcmpZero(e.name, s[i].name);
    }
    InsertedMap(s, p, e);
  }

  /** The names that are left when a handle retires. */
  function Without(s: seq<Named>, handle: nat): seq<Named> {
    if s == [] then []
    else
      var last := s[|s| - 1];
      Without(s[..|s| - 1], handle) + if last.handle == handle then [] else [last]
  }

  lemma {:induction false} WithoutIs(s: seq<Named>, handle: nat)
    requires Sorted(s)
    ensures |Without(s, handle)| <= |s| && Sorted(Without(s, handle))
    ensures forall e :: e in Without(s, handle) <==> e in s && e.handle != handle
  {
    if s != [] {
      WithoutIs(s[..|s| - 1], handle);
    }
  }

  lemma WithoutMap(s: seq<Named>, handle: nat)
    requires Sorted(s)
    ensures NameMap(Without(s, handle)) == map name | name in NameMap(s) && NameMap(s)[name] != handle :: NameMap(s)[name]
  {
    var t := Without(s, handle);
    var m := map name | name in NameMap(s) && NameMap(s)[name] != handle :: NameMap(s)[name];
    WithoutIs(s, handle);
    forall k | 0 <= k < |t| ensures t[k].name in m && m[t[k].name] == t[k].handle {
      assert t[k] in t;
      var i :| 0 <= i < |s| && s[i] == t[k];
      NameMapHas(s, s[i].name);
    }
    forall name | name in m ensures exists k :: 0 <= k < |t| && t[k].name == name {
      NameMapHas(s, name);
      var i :| 0 <= i < |s| && s[i].name == name;
      assert s[i] in t;
      var k :| 0 <= k < |t| && t[k] == s[i];
      assert t[k].name == name;
    }
    SameMap(m, t);
  }

  // ---- the array -----------------------------------------------------------------------------------

  class Names {
    var name: array<Named>
    var count: nat

    ghost predicate Valid()
      reads this, name
    {
      0 < name.Length && count <= name.Length && Sorted(name[..count])
    }

    ghost function Contents(): map<string, nat>
      requires Valid()
      reads this, name
    {
      NameMap(name[..count])
    }

    constructor ()
      ensures Valid() && Contents() == map[] && fresh(name)
    {
      name := new Named[2](_ => Named("", 0));
      count := 0;
    }

    /** The halving search of skynet_handle_findname and _insert_name: where the name is, or
        where it would go. */
    method Search(key: string) returns (found: bool, at: nat)
      requires Valid()
      ensures found ==> at < count && name[at].name == key
      ensures !found ==>
                && at <= count
                && (forall i :: 0 <= i < at ==> Strcmp(name[i].name, key) < 0)
                && (forall i :: at <= i < count ==> Strcmp(key, name[i].name) < 0)
    {
      var begin: int, end: int := 0, count - 1;
      while begin <= end
        invariant 0 <= begin <= end + 1 <= count
        invariant forall i :: 0 <= i < begin ==> Strcmp(name[i].name, key) < 0
        invariant forall i :: end < i < count ==> Strcmp(key, name[i].name) < 0
        decreases end - begin
      {
        var mid := (begin + end) / 2;
        var c := Strcmp(name[mid].name, key);
        if c == 0 {
          StrcmpZero(name[mid].name, key);
          return true, mid;
        }
        ghost var s := name[..count];
        if c < 0 {
          forall i | 0 <= i < mid + 1 ensures Strcmp(name[i].name, key) < 0 {
            if i < mid {
              assert Before(s[i], s[mid]);
              StrcmpTrans(name[i].name, name[mid].name, key);
            }
          }
          begin := mid + 1;
        } else {
          StrcmpFlip(name[mid].name, key);
          forall i | mid - 1 < i < count ensures Strcmp(key, name[i].name) < 0 {
            if i > mid {
              assert Before(s[mid], s[i]);
              StrcmpTrans(key, name[mid].name, name[i].name);
            }
          }
          end := mid - 1;
        }
      }
      found, at := false, begin;
    }

    /** skynet_handle_findname: 0 for a name that is not there. */
    method FindName(key: string) returns (handle: nat)
      requires Valid()
      ensures handle == if key in Contents() then Contents()[key] else 0
    {
      var found, at := Search(key);
      NameMapHas(name[..count], key);
      if found {
        assert name[..count][at].name == key;
        handle := name[at].handle;
      } else {
        NotThere(name[..count], key, at);
        handle := 0;
      }
    }

    /** _insert_name_before, when there is room: the rest moves up by one. */
    method ShiftUp(before: nat)
      requires before <= count < name.Length
      modifies name
      ensures name[..before] == old(name[..before])
      ensures name[before + 1..count + 1] == old(name[before..count])
    {
      var i := count;
      while i > before
        invariant before <= i <= count
        invariant forall k :: 0 <= k <= i && k < name.Length ==> name[k] == old(name[k])
        invariant forall k :: i < k <= count ==> name[k] == old(name[k - 1])
      {
        name[i] := name[i - 1];
        i := i - 1;
      }
      Shifted(old(name[..]), name[..], before, count);
    }

    /** _insert_name_before, when there is none: a bigger array takes both parts. */
    method Enlarged(before: nat) returns (n: array<Named>)
      requires before <= count == name.Length && 0 < name.Length
      ensures fresh(n) && n.Length == 2 * name.Length
      ensures n[..before] == name[..before]
      ensures count < n.Length && n[before + 1..count + 1] == name[before..count]
    {
      n := new Named[name.Length * 2](_ => Named("", 0));
      var i := 0;
      while i < before
        invariant 0 <= i <= before
        invariant forall k :: 0 <= k < i ==> n[k] == name[k]
      {
        n[i] := name[i];
        i := i + 1;
      }
      while i < count
        invariant before <= i <= count
        invariant forall k :: 0 <= k < before ==> n[k] == name[k]
        invariant forall k :: before <= k < i ==> n[k + 1] == name[k]
      {
        n[i + 1] := name[i];
        i := i + 1;
      }
      assert n[..before] == name[..before];
      assert n[before + 1..count + 1] == name[before..count];
    }

    /** _insert_name_before, but for the entry itself. */
    method MakeRoom(before: nat)
      requires before <= count <= name.Length && 0 < name.Length
      modifies this`name, name
      ensures count < name.Length && (name == old(name) || fresh(name))
      ensures name[..before] == old(name[..before])
      ensures name[before + 1..count + 1] == old(name[before..count])
    {
      if count >= name.Length {
        name := Enlarged(before);
      } else {
        ShiftUp(before);
      }
    }

    /** _insert_name: false when the name is there already. */
    method InsertName(key: string, handle: nat) returns (inserted: bool)
      requires Valid() && 0 < name.Length
      modifies this, name
      ensures Valid() && (name == old(name) || fresh(name))
      ensures inserted == (key !in old(Contents()))
      ensures Contents() == if inserted then old(Contents())[key := handle] else old(Contents())
    {
      var found, at := Search(key);
      ghost var s := name[..count];
      NameMapHas(s, key);
      if found {
        assert s[at].name == key;
        return false;
      }
      var e := Named(key, handle);
      forall i | 0 <= i < |s| ensures if i < at then Before(s[i], e) else Before(e, s[i]) {
        assert s[i] == name[i];
      }
      InsertedIs(s, at, e);
      InsertBefore(at, e);
      inserted := true;
    }

    /** _insert_name_before */
    method InsertBefore(before: nat, e: Named)
      requires before <= count <= name.Length && 0 < name.Length
      modifies this, name
      ensures 0 < name.Length && count <= name.Length && (name == old(name) || fresh(name))
      ensures name[..count] == Inserted(old(name[..count]), before, e)
    {
      ghost var s := name[..count];
      MakeRoom(before);
      ghost var front, back := name[..before], name[before + 1..count + 1];
      assert front == s[..before] && back == s[before..];
      name[before] := e;
      count := count + 1;
      assert name[..before] == front && name[before + 1..count] == back;
      assert name[..count] == name[..before] + [name[before]] + name[before + 1..count];
    }

    /** The loop of skynet_handle_retire: the array closes up over the handle's names. */
    method CloseUp(handle: nat) returns (j: nat)
      requires count <= name.Length
      modifies name
      ensures j <= count && name[..j] == Without(old(name[..count]), handle)
    {
      ghost var s := name[..count];
      var i := 0;
      j := 0;
      while i < count
        invariant 0 <= j <= i <= count == |s|
        invariant name[..j] == Without(s[..i], handle)
        invariant forall k :: i <= k < count ==> name[k] == s[k]
      {
        assert s[..i + 1][..i] == s[..i];
        if name[i].handle != handle {
          if i != j {
            name[j] := name[i];
          }
          j := j + 1;
        }
        i := i + 1;
      }
      assert s[..i] == s;
    }

    /** The names half of skynet_handle_retire. */
    method RemoveHandle(handle: nat)
      requires Valid()
      modifies this`count, name
      ensures Valid() && name == old(name)
      ensures Contents() == map key | key in old(Contents()) && old(Contents())[key] != handle :: old(Contents())[key]
    {
      ghost var s := name[..count];
      count := CloseUp(handle);
      WithoutIs(s, handle);
      WithoutMap(s, handle);
    }
  }

  lemma Shifted(a: seq<Named>, b: seq<Named>, before: nat, count: nat)
    requires before <= count < |a| == |b|
    requires forall k :: 0 <= k <= before ==> b[k] == a[k]
    requires forall k :: before < k <= count ==> b[k] == a[k - 1]
    ensures b[..before] == a[..before] && b[before + 1..count + 1] == a[before..count]
  {
  }

  lemma NotThere(s: seq<Named>, key: string, at: nat)
    requires at <= |s|
    requires forall i :: 0 <= i < at ==> Strcmp(s[i].name, key) < 0
    requires forall i :: at <= i < |s| ==> Strcmp(key, s[i].name) < 0
    ensures forall i :: 0 <= i < |s| ==> s[i].name != key
  {
    forall i | 0 <= i < |s| ensures s[i].name != key {
      StrcmpZero(s[i].name, key);
      StrcmpZero(key, s[i].name);
    }
  }
}
