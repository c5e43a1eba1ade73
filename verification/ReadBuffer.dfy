/** The read buffer of a socket (lua-socket.c): received chunks in a list of nodes, the first
    of which may be partly read.  The list is a sequence, its head first; the pool that
    nodes come from is not modelled.  Chunks are not empty. */
module ReadBuffer {
  import opened Prelude

  type Byte = x: int | 0 <= x < 256

  /** The bytes that are there, given the nodes and how much of the first is read. */
  function Unread(nodes: seq<seq<Byte>>, offset: nat): seq<Byte> {
    var all := Concat(nodes);
    if offset <= |all| then all[offset..] else []
  }

  /** No node is empty, and the first is not all read. */
  predicate Shape(nodes: seq<seq<Byte>>, offset: nat) {
    && (forall k :: 0 <= k < |nodes| ==> nodes[k] != [])
    && (if nodes == [] then offset == 0 else offset < |nodes[0]|)
  }

  /** What is unread begins with the rest of the first node. */
  lemma FirstNode(nodes: seq<seq<Byte>>, offset: nat)
    requires nodes != [] && offset <= |nodes[0]|
    ensures Unread(nodes, offset) == nodes[0][offset..] + Unread(nodes[1..], 0)
  {
    assert nodes == [nodes[0]] + nodes[1..];
    ConcatFirst(nodes[0], nodes[1..]);
    var more := Concat(nodes[1..]);
    assert Concat(nodes) == nodes[0] + more && more[0..] == more;
  }

  /** sep begins at place p of s. */
  predicate SepAt(s: seq<Byte>, sep: seq<Byte>, p: nat) {
    p + |sep| <= |s| && s[p..p + |sep|] == sep
  }

  /** p is the first place of sep. */
  predicate FirstSep(s: seq<Byte>, sep: seq<Byte>, p: nat) {
    SepAt(s, sep, p) && forall q :: 0 <= q < p ==> !SepAt(s, sep, q)
  }

  class SocketBuffer {
    var size: int
    var offset: nat
    var nodes: seq<seq<Byte>>

    predicate Valid()
      reads this
    {
      Shape(nodes, offset) && size == |Content()|
    }

    function Content(): seq<Byte>
      reads this
    {
      Unread(nodes, offset)
    }

    /** lnewbuffer */
    constructor ()
      ensures Valid() && Content() == []
    {
      size, offset, nodes := 0, 0, [];
    }

    /** lpushbuffer */
    method PushBuffer(msg: seq<Byte>) returns (total: int)
      requires Valid() && msg != []
      modifies this
      ensures Valid() && Content() == old(Content()) + msg && total == |Content()|
    {
      ghost var all := Concat(nodes);
      assert (nodes + [msg])[..|nodes|] == nodes && Concat(nodes + [msg]) == all + msg;
      if nodes != [] {
        FirstNode(nodes, offset);
        assert nodes == [nodes[0]] + nodes[1..];
        ConcatFirst(nodes[0], nodes[1..]);
      }
      nodes := nodes + [msg];
      size := size + |msg|;
      total := size;
    }

    /** return_free_node: the first node, read to its end, goes. */
    method ReturnNode()
      requires nodes != [] && Shape(nodes, offset)
      modifies this`nodes, this`offset
      ensures Shape(nodes, offset) && offset == 0 && nodes == old(nodes[1..])
      ensures old(Content()) == old(nodes[0][offset..]) + Content()
    {
      FirstNode(nodes, offset);
      offset := 0;
      nodes := nodes[1..];
    }

    /** pop_lstring: takes sz bytes and returns all of them but the last skip. */
    method PopString(sz: nat, skip: nat) returns (r: seq<Byte>)
      requires nodes != [] && Shape(nodes, offset) && skip <= sz <= |Content()|
      modifies this`nodes, this`offset
      ensures Shape(nodes, offset)
      ensures r == old(Content())[..sz - skip] && Content() == old(Content())[sz..]
    {
      var current := nodes[0];
      FirstNode(nodes, offset);
      if sz < |current| - offset {
        r := current[offset..offset + sz - skip];
        FirstNode(nodes, offset + sz);
        offset := offset + sz;
        return;
      }
      if sz == |current| - offset {
        r := current[offset..offset + sz - skip];
        ReturnNode();
        return;
      }
      r := PopAcross(sz, skip);
    }

    /** Moves on within the first node, or to its end. */
    method Advance(sz: nat)
      requires nodes != [] && Shape(nodes, offset) && sz <= |nodes[0]| - offset
      modifies this`nodes, this`offset
      ensures Shape(nodes, offset) && sz <= |old(Content())| && Content() == old(Content())[sz..]
    {
      FirstNode(nodes, offset);
      if sz == |nodes[0]| - offset {
        ReturnNode();
      } else {
        FirstNode(nodes, offset + sz);
        offset := offset + sz;
      }
    }

    /** One turn of the loop of pop_lstring: what it takes from the first node, and how much
        is still to take. */
    method PopPiece(sz: nat, skip: nat) returns (piece: seq<Byte>, left: nat)
      requires nodes != [] && Shape(nodes, offset) && 0 < sz <= |Content()|
      modifies this`nodes, this`offset
      ensures Shape(nodes, offset) && left < sz
      ensures Content() == old(Content())[sz - left..]
      ensures piece == old(Content())[..Part(sz - left, sz - skip)]
    {
      FirstNode(nodes, offset);
      var here := nodes[0][offset..];
      var wanted := sz - skip;
      var n: nat := if |here| >= sz then sz else |here|;
      piece := here[..Part(n, wanted)];
      Front(here, Unread(nodes[1..], 0), Part(n, wanted));
      Advance(n);
      left := sz - n;
    }

    /** The loop of pop_lstring, over several nodes. */
    method PopAcross(total: nat, skip: nat) returns (b: seq<Byte>)
      requires nodes != [] && Shape(nodes, offset) && skip <= total <= |Content()| && total > 0
      modifies this`nodes, this`offset
      ensures Shape(nodes, offset)
      ensures b == old(Content())[..total - skip] && Content() == old(Content())[total..]
    {
      ghost var s := Content();
      var sz := total;
      b := [];
      while sz > 0
        invariant Shape(nodes, offset) && 0 <= sz <= total
        invariant Content() == s[total - sz..]
        invariant b == s[..Part(total - sz, total - skip)]
        decreases sz
      {
        NotEmpty(nodes, offset);
        var piece, left := PopPiece(sz, skip);
        NextPiece(s, total - sz, sz - left, total - skip);
        b := b + piece;
        sz := left;
      }
    }

    /** lpopbuffer: the first sz bytes, or nothing if there are fewer. */
    method PopBuffer(sz: nat) returns (r: Option<seq<Byte>>, left: int)
      requires Valid()
      modifies this
      ensures Valid() && left == |Content()|
      ensures if sz == 0 || sz > |old(Content())| then r == None && Content() == old(Content())
              else r == Some(old(Content())[..sz]) && Content() == old(Content())[sz..]
    {
      if size < sz || sz == 0 {
        r := None;
      } else {
        NotEmpty(nodes, offset);
        var b := PopString(sz, 0);
        r := Some(b);
        size := size - sz;
      }
      left := size;
    }

    /** lreadall */
    method ReadAll() returns (b: seq<Byte>)
      requires Valid()
      modifies this
      ensures Valid() && b == old(Content()) && Content() == []
    {
      b := [];
      while nodes != []
        invariant Shape(nodes, offset) && b + Content() == old(Content())
        decreases |nodes|
      {
        Assoc(b, nodes[0][offset..], Unread(nodes[1..], 0));
        FirstNode(nodes, offset);
        b := b + nodes[0][offset..];
        ReturnNode();
      }
      size := 0;
    }

    /** lreadline: the bytes before the first separator, which goes with them; or nothing
        changes.  With `check` it only says whether there is a separator. */
    method ReadLine(sep: seq<Byte>, check: bool) returns (found: bool, line: seq<Byte>, ghost at: nat)
      requires Valid()
      modifies this
      ensures Valid()
      ensures found <==> old(Content()) != [] && exists p :: SepAt(old(Content()), sep, p)
      ensures found ==> FirstSep(old(Content()), sep, at)
      ensures found && !check ==> line == old(Content())[..at] && Content() == old(Content())[at + |sep|..]
      ensures !found || check ==> Content() == old(Content())
    {
      line, at := [], 0;
      if nodes == [] {
        return false, [], 0;
      }
      FirstNode(nodes, offset);
      var i;
      found, i := FindSep(nodes, offset, size, sep);
      at := i;
      if found {
        assert SepAt(Content(), sep, i);
        if !check {
          line := PopString(i + |sep|, |sep|);
          size := size - (i + |sep|);
        }
      }
    }
  }

  /** check_sep: whether sep begins at place start of the first node. */
  method CheckSep(nodes: seq<seq<Byte>>, start: nat, sep: seq<Byte>) returns (found: bool)
    requires nodes != [] && start <= |nodes[0]| && |sep| <= |Unread(nodes, start)|
    ensures found == StartsWith(Unread(nodes, start), sep)
  {
    var left, from: nat, rest := nodes, start, sep;
    ghost var u := Unread(nodes, start);
    ghost var all := StartsWith(u, sep);
    while true
      invariant left != [] && from <= |left[0]| && u == Unread(left, from) && |rest| <= |u|
      invariant all == StartsWith(u, rest)
      decreases |left|
    {
      FirstNode(left, from);
      var here := left[0][from..];
      ghost var more := Unread(left[1..], 0);
      StartsAcross(here, more, rest);
      if |here| >= |rest| {
        return here[..|rest|] == rest;
      }
      if |here| > 0 {
        if here != rest[..|here|] {
          return false;
        }
      }
      Longer(left[1..], |rest| - |here|);
      left, from, rest, u := left[1..], 0, rest[|here|..], more;
    }
  }

  lemma Longer(nodes: seq<seq<Byte>>, n: int)
    requires 0 < n <= |Unread(nodes, 0)|
    ensures nodes != []
  {
  }

  /** The search of lreadline stands at place i, with the rest of the bytes before it. */
  ghost predicate Searching(s: seq<Byte>, left: seq<seq<Byte>>, from: nat, i: nat) {
    left != [] && Shape(left, from) && i < |s| && Unread(left, from) == s[i..]
  }

  predicate Tried(s: seq<Byte>, sep: seq<Byte>, i: nat) {
    forall q :: 0 <= q < i ==> !SepAt(s, sep, q)
  }

  lemma SearchOn(s: seq<Byte>, left: seq<seq<Byte>>, from: nat, i: nat)
    requires Searching(s, left, from, i)
    ensures if from + 1 < |left[0]| then Searching(s, left, from + 1, i + 1)
            else if left[1..] != [] then Searching(s, left[1..], 0, i + 1)
            else i + 1 == |s|
  {
    OneByte(left, from);
    assert s[i..][1..] == s[i + 1..];
    if from + 1 < |left[0]| {
      NotEmptyYet(left, from + 1);
    } else if left[1..] != [] {
      NotEmptyYet(left[1..], 0);
    } else {
      assert Unread([], 0) == [];
    }
  }

  /** The search of lreadline: the first place of the separator. */
  method FindSep(nodes: seq<seq<Byte>>, offset: nat, size: int, sep: seq<Byte>) returns (found: bool, i: nat)
    requires Shape(nodes, offset) && nodes != [] && size == |Unread(nodes, offset)|
    ensures found ==> FirstSep(Unread(nodes, offset), sep, i)
    ensures !found ==> forall p :: !SepAt(Unread(nodes, offset), sep, p)
  {
    ghost var s := Unread(nodes, offset);
    NotEmptyYet(nodes, offset);
    var left, from: nat := nodes, offset;
    i := 0;
    while i <= size - |sep|
      invariant Searching(s, left, from, i) && Tried(s, sep, i)
      decreases |s| - i
    {
      found := CheckSep(left, from, sep);
      HereOrOn(s, sep, i, found);
      if found {
        return;
      }
      SearchOn(s, left, from, i);
      from := from + 1;
      if from == |left[0]| {
        left := left[1..];
        from := 0;
        if left == [] {
          NoneLeft(s, sep, i);
          return false, i;
        }
      }
      i := i + 1;
    }
    NoneAfter(s, sep, i);
    found := false;
  }

  lemma StartsHere(s: seq<Byte>, sep: seq<Byte>, i: nat)
    requires i <= |s|
    ensures StartsWith(s[i..], sep) <==> SepAt(s, sep, i)
  {
    if i + |sep| <= |s| {
      assert s[i..][..|sep|] == s[i..i + |sep|];
    }
  }

  /** The bytes after the first unread one. */
  lemma OneByte(nodes: seq<seq<Byte>>, offset: nat)
    requires nodes != [] && Shape(nodes, offset)
    ensures |Unread(nodes, offset)| > 0
    ensures Unread(nodes, offset)[1..] ==
            if offset + 1 == |nodes[0]| then Unread(nodes[1..], 0) else Unread(nodes, offset + 1)
  {
    FirstNode(nodes, offset);
    FirstNode(nodes, offset + 1);
    assert nodes[0][offset..][1..] == nodes[0][offset + 1..];
    if offset + 1 == |nodes[0]| {
      assert nodes[0][offset + 1..] == [];
    }
  }

  lemma NotEmptyYet(nodes: seq<seq<Byte>>, offset: nat)
    requires nodes != [] && Shape(nodes, offset)
    ensures |Unread(nodes, offset)| > 0
  {
    FirstNode(nodes, offset);
  }

  lemma HereOrOn(s: seq<Byte>, sep: seq<Byte>, i: nat, found: bool)
    requires Tried(s, sep, i) && i <= |s| && found == StartsWith(s[i..], sep)
    ensures found ==> FirstSep(s, sep, i)
    ensures !found ==> Tried(s, sep, i + 1)
  {
    StartsHere(s, sep, i);
  }

  lemma NoneAfter(s: seq<Byte>, sep: seq<Byte>, i: nat)
    requires Tried(s, sep, i) && i > |s| - |sep|
    ensures forall p :: !SepAt(s, sep, p)
  {
  }

  /** After the last byte there is no place left for a separator. */
  lemma NoneLeft(s: seq<Byte>, sep: seq<Byte>, i: nat)
    requires i + 1 == |s| && Tried(s, sep, i + 1)
    ensures forall p :: !SepAt(s, sep, p)
  {
    assert !SepAt(s, sep, 0);
  }

  predicate StartsWith(s: seq<Byte>, sep: seq<Byte>) {
    |sep| <= |s| && s[..|sep|] == sep
  }

  /** A separator that ends in the node, or goes on in the next. */
  lemma StartsAcross(here: seq<Byte>, more: seq<Byte>, sep: seq<Byte>)
    ensures |sep| <= |here| ==> (StartsWith(here + more, sep) <==> here[..|sep|] == sep)
    ensures |here| < |sep| <= |here + more| ==>
              (StartsWith(here + more, sep) <==> here == sep[..|here|] && StartsWith(more, sep[|here|..]))
  {
    var n := |here|;
    if |sep| <= n {
      assert (here + more)[..|sep|] == here[..|sep|];
    } else if |sep| <= |here + more| {
      assert (here + more)[..|sep|] == here + more[..|sep| - n];
      assert sep == sep[..n] + sep[n..];
    }
  }

  lemma Front(here: seq<Byte>, more: seq<Byte>, n: nat)
    requires n <= |here|
    ensures (here + more)[..n] == here[..n]
  {
  }

  /** How much of d bytes is wanted when the first n of them are. */
  function Part(d: nat, n: int): nat { if n <= 0 then 0 else if n < d then n else d }

  /** A piece of n bytes after d bytes, when the first end bytes are wanted. */
  lemma NextPiece(s: seq<Byte>, d: nat, n: nat, end: int)
    requires d + n <= |s|
    ensures s[d..][n..] == s[d + n..]
    ensures s[..Part(d, end)] + s[d..][..Part(n, end - d)] == s[..Part(d + n, end)]
  {
  }

  lemma NotEmpty(nodes: seq<seq<Byte>>, offset: nat)
    requires Shape(nodes, offset) && |Unread(nodes, offset)| > 0
    ensures nodes != []
  {
  }
}
