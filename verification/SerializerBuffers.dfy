/** The buffers of the serializer (lua-seri.c): a list of 128-byte blocks that packing fills
    and a cursor that unpacking moves, driven by the recursive pack and unpack. */
module SerializerBuffers {
  import opened Prelude
  import opened Serializer

  const BlockSize := 128

  /** struct write_block; its linked list of blocks is a sequence, the last one current. */
  class WriteBlock {
    var blocks: seq<array<Byte>>
    var len: nat
    var ptr: nat
    ghost var Written: seq<Byte>
    ghost var Repr: set<object>

    /** The blocks hold what was written, in order and without gaps. */
    ghost predicate Valid()
      reads this, Repr
    {
      && this in Repr
      && |blocks| > 0
      && (forall k :: 0 <= k < |blocks| ==> blocks[k] in Repr && blocks[k].Length == BlockSize)
      && (forall i, j :: 0 <= i < j < |blocks| ==> blocks[i] != blocks[j])
      && ptr <= BlockSize
      && len == 128 * (|blocks| - 1) + ptr
      && len == |Written|
      && forall b, i :: 0 <= b < |blocks| && 0 <= i < BlockSize && 128 * b + i < len ==>
           blocks[b][i] == Written[128 * b + i]
    }

    /** wb_init */
    constructor ()
      ensures Valid() && Written == [] && fresh(Repr)
    {
      var b := new Byte[BlockSize];
      blocks, len, ptr := [b], 0, 0;
      Written := [];
      Repr := {this, b};
    }

    method NewBlock()
      requires Valid() && ptr == BlockSize
      modifies Repr
      ensures Valid() && ptr == 0 && Written == old(Written) && fresh(Repr - old(Repr))
    {
      var b := new Byte[BlockSize];
      blocks, ptr := blocks + [b], 0;
      Repr := Repr + {b};
    }

    /** memcpy into the current block. */
    method CopyIn(part: seq<Byte>)
      requires Valid() && ptr + |part| <= BlockSize
      modifies Repr
      ensures Valid() && Written == old(Written) + part && ptr == old(ptr) + |part| && Repr == old(Repr)
    {
      var current := blocks[|blocks| - 1];
      forall i | 0 <= i < |part| {
        current[ptr + i] := part[i];
      }
      len, ptr := len + |part|, ptr + |part|;
      Written := Written + part;
    }

    /** wb_push */
    method Push(buffer: seq<Byte>)
      requires Valid()
      modifies Repr
      ensures Valid() && Written == old(Written) + buffer && fresh(Repr - old(Repr))
    {
      var rest := buffer;
      if ptr == BlockSize {
        NewBlock();
      }
      while ptr > BlockSize - |rest|
        invariant Valid() && ptr < BlockSize
        invariant Written + rest == old(Written) + buffer
        invariant fresh(Repr - old(Repr))
        decreases |rest|
      {
        var copy := BlockSize - ptr;
        CopyIn(rest[..copy]);
        rest := rest[copy..];
        NewBlock();
      }
      CopyIn(rest);
    }

    /** seri: the blocks, copied into one buffer. */
    method Seri() returns (buffer: array<Byte>)
      requires Valid()
      ensures fresh(buffer) && buffer[..] == Written
    {
      buffer := new Byte[len];
      var at: nat, left: nat, b: nat := 0, len, 0;
      while left > 0
        invariant at + left == len && (left > 0 ==> at == 128 * b) && buffer.Length == len == |Written|
        invariant buffer[..at] == Written[..at]
      {
        var n := if left >= BlockSize then BlockSize else left;
        assert b < |blocks|;
        forall i | 0 <= i < n {
          buffer[at + i] := blocks[b][i];
        }
        assert forall i :: 0 <= i < n ==> blocks[b][i] == Written[at + i];
        assert buffer[..at] == Written[..at];
        assert buffer[at..at + n] == Written[at..at + n];
        Prefix(buffer[..], Written, at, n);
        at, left, b := at + n, left - n, b + 1;
        if n < BlockSize {
          break;
        }
      }
      assert buffer[..] == buffer[..len] && Written == Written[..len];
    }

    /** The tag byte of a value, and the bytes that follow it. */
    method PushTagged(tag: Byte, bytes: seq<Byte>)
      requires Valid()
      modifies Repr
      ensures Valid() && Written == old(Written) + ([tag] + bytes) && fresh(Repr - old(Repr))
    {
      Push([tag]);
      Push(bytes);
      Assoc(old(Written), [tag], bytes);
    }

    /** wb_integer */
    method WbInteger(v: int)
      requires Valid()
      modifies Repr
      ensures Valid() && Written == old(Written) + PackInteger(v) && fresh(Repr - old(Repr))
    {
      if v == 0 {
        Push([Tag(TypeNumber, NumberZero)]);
      } else if v < -0x8000_0000 || v >= 0x8000_0000 {
        PushTagged(Tag(TypeNumber, NumberQword), Bytes(v % 0x1_0000_0000_0000_0000, 8));
      } else if v < 0 {
        PushTagged(Tag(TypeNumber, NumberDword), Bytes(v % 0x1_0000_0000, 4));
      } else if v < 0x100 {
        PushTagged(Tag(TypeNumber, NumberByte), Bytes(v, 1));
      } else if v < 0x1_0000 {
        PushTagged(Tag(TypeNumber, NumberWord), Bytes(v, 2));
      } else {
        PushTagged(Tag(TypeNumber, NumberDword), Bytes(v, 4));
      }
    }

    /** wb_string */
    method WbString(str: seq<Byte>)
      requires Valid()
      modifies Repr
      ensures Valid() && Written == old(Written) + PackString(str) && fresh(Repr - old(Repr))
    {
      if |str| < MaxCookie {
        Push([Tag(TypeShortString, |str|)]);
        if |str| > 0 {
          Push(str);
        }
        Assoc(old(Written), [Tag(TypeShortString, |str|)], str);
      } else {
        WbLongString(str, if |str| < 0x1_0000 then 2 else 4);
      }
    }

    method WbLongString(str: seq<Byte>, width: nat)
      requires Valid() && width < 32
      modifies Repr
      ensures Valid() && fresh(Repr - old(Repr))
      ensures Written == old(Written) + ([Tag(TypeLongString, width)] + Bytes(|str|, width) + str)
    {
      PushTagged(Tag(TypeLongString, width), Bytes(|str|, width));
      Push(str);
      Assoc(old(Written), [Tag(TypeLongString, width)] + Bytes(|str|, width), str);
    }

    method WbAtom(a: Atom)
      requires Valid()
      modifies Repr
      ensures Valid() && Written == old(Written) + PackAtom(a) && fresh(Repr - old(Repr))
    {
      match a
      case Boolean(b) => Push([Tag(TypeBoolean, if b then 1 else 0)]);
      case Integer(i) => WbInteger(i);
      case Real(bits) => PushTagged(Tag(TypeNumber, NumberReal), bits);
      case Pointer(bits) => PushTagged(Tag(TypeUserdata, 0), bits);
      case Str(bytes) => WbString(bytes);
    }

    method WbTableHead(n: Size)
      requires Valid()
      modifies Repr
      ensures Valid() && Written == old(Written) + TableHead(n) && fresh(Repr - old(Repr))
    {
      if n >= MaxCookie - 1 {
        Push([Tag(TypeTable, MaxCookie - 1)]);
        WbInteger(n);
        Assoc(old(Written), [Tag(TypeTable, MaxCookie - 1)], PackInteger(n));
      } else {
        Push([Tag(TypeTable, n)]);
      }
    }

    /** pack_one for a key or a nil. */
    method PackFlat(key: Option<Atom>, depth: nat) returns (error: Option<SeriError>)
      requires Valid()
      modifies Repr
      ensures Valid() && fresh(Repr - old(Repr))
      ensures Outcome(Guard(depth, if key.Some? then PackAtom(key.value) else [Tag(TypeNil, 0)]), error, old(Written), Written)
    {
      if depth > MaxDepth {
        return Some(TooDeep);
      }
      if key.Some? {
        WbAtom(key.value);
      } else {
        Push([Tag(TypeNil, 0)]);
      }
      error := None;
    }

    /** pack_one */
    method PackOne(l: Lua, depth: nat) returns (error: Option<SeriError>)
      requires Valid()
      modifies Repr
      ensures Valid() && fresh(Repr - old(Repr))
      ensures Outcome(Pack(l, depth), error, old(Written), Written)
      decreases l, 2
    {
      if depth > MaxDepth {
        return Some(TooDeep);
      }
      error := None;
      match l
      case Nil => Push([Tag(TypeNil, 0)]);
      case Single(a) => WbAtom(a);
      case Table(border, entries) =>
        WbTableHead(border);
        error := WbTableArray(l, depth + 1);
        if error == None {
          ghost var keys, parts := Keys(entries), PackValues(l, depth + 1);
          ghost var part := PackArray(border, keys, parts, 1, depth + 1).value;
          Assoc(old(Written), TableHead(border), part);
          error := WbTableHash(l, depth + 1);
          if error == None {
            ghost var hash := PackHash(border, keys, parts, 0, depth + 1).value;
            Assoc(old(Written), TableHead(border) + part, hash);
            Assoc(TableHead(border), part, hash);
          }
        }
      case Unsupported => error := Some(UnsupportedType);
    }

    /** Packs what lua_rawgeti finds at index i. */
    method PackIndex(l: Lua, i: nat, depth: nat) returns (error: Option<SeriError>)
      requires Valid() && l.Table?
      modifies Repr
      ensures Valid() && fresh(Repr - old(Repr))
      ensures Outcome(PackElement(Keys(l.entries), PackValues(l, depth), i, depth), error, old(Written), Written)
      decreases l, 0
    {
      var p := Place(Keys(l.entries), Integer(i));
      if p < |l.entries| {
        error := PackOne(l.entries[p].value, depth);
      } else {
        error := PackFlat(None, depth);
      }
    }

    method WbTableArray(l: Lua, depth: nat) returns (error: Option<SeriError>)
      requires Valid() && l.Table?
      modifies Repr
      ensures Valid() && fresh(Repr - old(Repr))
      ensures Outcome(PackArray(l.border, Keys(l.entries), PackValues(l, depth), 1, depth), error, old(Written), Written)
      decreases l, 1
    {
      ghost var keys, parts := Keys(l.entries), PackValues(l, depth);
      ghost var all := PackArray(l.border, keys, parts, 1, depth);
      ghost var done: seq<Byte> := [];
      ThenNothing(all);
      var i := 1;
      while i <= l.border
        invariant 1 <= i <= l.border + 1
        invariant Valid() && fresh(Repr - old(Repr))
        invariant Written == old(Written) + done
        invariant all == Then(Ok(done), PackArray(l.border, keys, parts, i, depth))
      {
        ArrayMore(l.border, keys, parts, i, depth, done);
        ghost var e := PackElement(keys, parts, i, depth);
        error := PackIndex(l, i, depth);
        if error != None {
          assert all == e;
          return;
        }
        Assoc(old(Written), done, e.value);
        done := done + e.value;
        i := i + 1;
      }
      error := None;
    }

    /** Packs one pair. */
    method PackPair(l: Lua, k: nat, depth: nat) returns (error: Option<SeriError>)
      requires Valid() && l.Table? && k < |l.entries|
      modifies Repr
      ensures Valid() && fresh(Repr - old(Repr))
      ensures Outcome(PackEntry(Keys(l.entries), PackValues(l, depth), k, depth), error, old(Written), Written)
      decreases l, 0
    {
      error := PackFlat(Some(l.entries[k].key), depth);
      if error == None {
        error := PackOne(l.entries[k].value, depth);
        if error == None {
          Assoc(old(Written), PackAtom(l.entries[k].key), Pack(l.entries[k].value, depth).value);
        }
      }
    }

    method WbTableHash(l: Lua, depth: nat) returns (error: Option<SeriError>)
      requires Valid() && l.Table?
      modifies Repr
      ensures Valid() && fresh(Repr - old(Repr))
      ensures Outcome(PackHash(l.border, Keys(l.entries), PackValues(l, depth), 0, depth), error, old(Written), Written)
      decreases l, 1
    {
      ghost var keys, parts := Keys(l.entries), PackValues(l, depth);
      ghost var all := PackHash(l.border, keys, parts, 0, depth);
      ghost var done: seq<Byte> := [];
      ThenNothing(all);
      var k := 0;
      while k < |l.entries|
        invariant 0 <= k <= |l.entries|
        invariant Valid() && Written == old(Written) + done && fresh(Repr - old(Repr))
        invariant all == Then(Ok(done), PackHash(l.border, keys, parts, k, depth))
      {
        HashMore(l.border, keys, parts, k, depth, done);
        if !InArray(l.entries[k].key, l.border) {
          ghost var e := PackEntry(keys, parts, k, depth);
          error := PackPair(l, k, depth);
          if error != None {
            assert all == e;
            return;
          }
          Assoc(old(Written), done, e.value);
          done := done + e.value;
        }
        k := k + 1;
      }
      Push([Tag(TypeNil, 0)]);
      Assoc(old(Written), done, [Tag(TypeNil, 0)]);
      error := None;
    }
  }

  function PackEntry(keys: seq<Atom>, parts: seq<Packed>, k: nat, depth: nat): Packed
    requires k < |keys| == |parts|
  {
    Then(Guard(depth, PackAtom(keys[k])), parts[k])
  }

  lemma ArrayMore(border: Size, keys: seq<Atom>, parts: seq<Packed>, i: nat, depth: nat, done: seq<Byte>)
    requires |parts| == |keys| && i <= border
    ensures var e := PackElement(keys, parts, i, depth);
            Then(Ok(done), PackArray(border, keys, parts, i, depth)) ==
            if e.Ok? then Then(Ok(done + e.value), PackArray(border, keys, parts, i + 1, depth)) else e
  {
    var e := PackElement(keys, parts, i, depth);
    if e.Ok? {
      ThenMore(done, e.value, PackArray(border, keys, parts, i + 1, depth));
    }
  }

  lemma HashMore(border: Size, keys: seq<Atom>, parts: seq<Packed>, k: nat, depth: nat, done: seq<Byte>)
    requires |parts| == |keys| && k < |keys|
    ensures Then(Ok(done), PackHash(border, keys, parts, k, depth)) ==
            if InArray(keys[k], border) then Then(Ok(done), PackHash(border, keys, parts, k + 1, depth))
            else if PackEntry(keys, parts, k, depth).Ok? then
              Then(Ok(done + PackEntry(keys, parts, k, depth).value), PackHash(border, keys, parts, k + 1, depth))
            else PackEntry(keys, parts, k, depth)
  {
    var e := PackEntry(keys, parts, k, depth);
    if e.Ok? && !InArray(keys[k], border) {
      ThenMore(done, e.value, PackHash(border, keys, parts, k + 1, depth));
      ThenMore(PackAtom(keys[k]), parts[k].value, PackHash(border, keys, parts, k + 1, depth));
    }
  }

  /** struct read_block: what is left of the buffer starts at ptr and is len long. */
  class ReadBlock {
    const buffer: seq<Byte>
    var len: nat
    var ptr: nat

    ghost predicate Valid()
      reads this
    {
      ptr + len == |buffer|
    }

    ghost function Rest(): seq<Byte>
      requires Valid()
      reads this
    {
      buffer[ptr..]
    }

    /** rball_init */
    constructor (buffer: seq<Byte>)
      ensures Valid() && Rest() == buffer
    {
      this.buffer, len, ptr := buffer, |buffer|, 0;
    }

    /** rb_read */
    method RbRead(sz: nat) returns (r: Option<seq<Byte>>)
      requires Valid()
      modifies this
      ensures Valid()
      ensures Did(Take(old(Rest()), sz), r, Rest())
    {
      if len < sz {
        return None;
      }
      r := Some(buffer[ptr..ptr + sz]);
      ptr, len := ptr + sz, len - sz;
      assert old(Rest())[..sz] == r.value && old(Rest())[sz..] == Rest();
    }

    /** The reader that goes on with its result, or raises the error. */
    method Number(width: nat, range: nat) returns (r: Option<int>)
      requires Valid()
      modifies this
      ensures Valid() && Did(Fixed(old(Rest()), width, range), r, Rest())
    {
      var b := RbRead(width);
      match b
      case None => r := None;
      case Some(bytes) => r := Some(Signed(Serializer.Number(bytes), range));
    }

    /** get_integer */
    method ReadInteger(cookie: nat) returns (r: Option<int>)
      requires Valid()
      modifies this
      ensures Valid() && Did(GetInteger(old(Rest()), cookie), r, Rest())
    {
      if cookie == NumberZero {
        r := Some(0);
      } else if cookie == NumberByte {
        r := Number(1, 0x200);
      } else if cookie == NumberWord {
        r := Number(2, 0x2_0000);
      } else if cookie == NumberDword {
        r := Number(4, 0x1_0000_0000);
      } else if cookie == NumberQword {
        r := Number(8, 0x1_0000_0000_0000_0000);
      } else {
        r := None;
      }
    }

    method ReadLong(width: nat) returns (r: Option<Val>)
      requires Valid()
      modifies this
      ensures Valid() && Did(GetLong(old(Rest()), width), r, Rest())
    {
      var n := RbRead(width);
      if n == None {
        return None;
      }
      var b := RbRead(Serializer.Number(n.value));
      r := if b.Some? then Some(Lone(Str(b.value))) else None;
    }

    /** push_value, for what is not a table. */
    method ReadSingle(kind: nat, cookie: nat) returns (r: Option<Val>)
      requires Valid()
      modifies this
      ensures Valid() && Did(GetSingle(old(Rest()), kind, cookie), r, Rest())
    {
      if kind == TypeNil {
        r := Some(Nothing);
      } else if kind == TypeBoolean {
        r := Some(Lone(Boolean(cookie != 0)));
      } else if kind == TypeNumber && cookie != NumberReal {
        var n := ReadInteger(cookie);
        r := if n.Some? then Some(Lone(Integer(n.value))) else None;
      } else if kind == TypeNumber || kind == TypeUserdata {
        var b := RbRead(8);
        r := if b == None then None
             else if kind == TypeNumber then Some(Lone(Real(b.value))) else Some(Lone(Pointer(b.value)));
      } else if kind == TypeShortString {
        var b := RbRead(cookie);
        r := if b.Some? then Some(Lone(Str(b.value))) else None;
      } else if kind == TypeLongString && (cookie == 2 || cookie == 4) {
        r := ReadLong(cookie);
      } else {
        r := None;
      }
    }

    /** The array size at the start of unpack_table. */
    method ReadArraySize(cookie: nat) returns (r: Option<int>)
      requires Valid()
      modifies this
      ensures Valid() && Did(GetArraySize(old(Rest()), cookie), r, Rest())
    {
      if cookie != MaxCookie - 1 {
        return Some(cookie);
      }
      var t := RbRead(1);
      if t == None || t.value[0] % 8 != TypeNumber || t.value[0] / 8 == NumberReal {
        return None;
      }
      var n := ReadInteger(t.value[0] / 8);
      r := if n.Some? then Some(ToInt(n.value)) else None;
    }

    /** unpack_one */
    method UnpackOne() returns (r: Option<Val>)
      requires Valid()
      modifies this
      ensures Valid() && Did(Unpack(old(Rest())), r, Rest())
      decreases |Rest()|, 1
    {
      var t := RbRead(1);
      if t == None {
        return None;
      }
      if t.value[0] % 8 == TypeTable {
        r := ReadTable(t.value[0] / 8);
      } else {
        r := ReadSingle(t.value[0] % 8, t.value[0] / 8);
      }
    }

    /** unpack_table */
    method ReadTable(cookie: nat) returns (r: Option<Val>)
      requires Valid()
      modifies this
      ensures Valid() && Did(UnpackTable(old(Rest()), cookie), r, Rest())
      decreases |Rest()|, 3
    {
      var n := ReadArraySize(cookie);
      if n == None {
        return None;
      }
      var m := ReadArray(n.value);
      if m == None {
        return None;
      }
      r := ReadHash(m.value);
    }

    method ReadArray(n: int) returns (r: Option<map<Atom, Val>>)
      requires Valid()
      modifies this
      ensures Valid() && Did(UnpackArray(old(Rest()), map[], 1, n), r, Rest())
      decreases |Rest()|, 2
    {
      ghost var all := UnpackArray(Rest(), map[], 1, n);
      var m: map<Atom, Val> := map[];
      var i := 1;
      while i <= n
        invariant Valid() && |Rest()| <= old(|Rest()|)
        invariant all == UnpackArray(Rest(), m, i, n)
        decreases n - i
      {
        var v := UnpackOne();
        if v == None {
          return None;
        }
        m := RawSet(m, Integer(i), v.value);
        i := i + 1;
      }
      r := Some(m);
    }

    method ReadHash(start: map<Atom, Val>) returns (r: Option<Val>)
      requires Valid()
      modifies this
      ensures Valid() && Did(UnpackHash(old(Rest()), start), r, Rest())
      decreases |Rest()|, 2
    {
      ghost var all := UnpackHash(Rest(), start);
      var m := start;
      while true
        invariant Valid() && |Rest()| <= old(|Rest()|)
        invariant all == UnpackHash(Rest(), m)
        decreases |Rest()|
      {
        var k := UnpackOne();
        if k == None || k.value.Map? {
          return None;
        }
        if k.value.Nothing? {
          return Some(Map(m));
        }
        var v := UnpackOne();
        if v == None {
          return None;
        }
        m := RawSet(m, k.value.a, v.value);
      }
    }
  }

  /** What a reader did: its value and the rest of the stream, or an error. */
  predicate Did<T(==)>(read: Read<T>, r: Option<T>, rest: seq<Byte>) {
    match read
    case Got(v, left) => r == Some(v) && rest == left
    case Fail(_) => r == None
  }

  /** luaseri_pack: pack_from, then the blocks in one buffer. */
  method LuaSeriPack(ls: seq<Lua>) returns (r: Result<array<Byte>, SeriError>)
    ensures match PackAll(ls)
            case Ok(bytes) => r.Ok? && r.value[..] == bytes
            case Err(e) => r == Err(e)
  {
    var wb := new WriteBlock();
    var i := 0;
    ghost var done: seq<Byte> := [];
    ThenNothing(PackAll(ls));
    assert ls[0..] == ls;
    while i < |ls|
      invariant 0 <= i <= |ls|
      invariant wb.Valid() && fresh(wb.Repr) && wb.Written == done
      invariant PackAll(ls) == Then(Ok(done), PackAll(ls[i..]))
    {
      var error := wb.PackOne(ls[i], 0);
      assert ls[i..][1..] == ls[i + 1..];
      if error != None {
        return Err(error.value);
      }
      ThenMore(done, Pack(ls[i], 0).value, PackAll(ls[i + 1..]));
      done := done + Pack(ls[i], 0).value;
      i := i + 1;
    }
    var buffer := wb.Seri();
    r := Ok(buffer);
  }

  /** luaseri_unpack */
  method LuaSeriUnpack(buffer: seq<Byte>) returns (r: Option<seq<Val>>)
    ensures match UnpackAll(buffer)
            case Ok(vals) => r == Some(vals)
            case Err(_) => r == None
  {
    var rb := new ReadBlock(buffer);
    var vals: seq<Val> := [];
    PrependNothing(UnpackAll(buffer));
    while rb.len > 0
      invariant rb.Valid()
      invariant UnpackAll(buffer) == Prepend(vals, UnpackAll(rb.Rest()))
      decreases rb.len
    {
      PrependMore(vals, rb.Rest());
      var v := rb.UnpackOne();
      if v == None {
        return None;
      }
      vals := vals + [v.value];
    }
    assert rb.Rest() == [] && vals + [] == vals;
    r := Some(vals);
  }

  function Prepend(vals: seq<Val>, r: Result<seq<Val>, SeriError>): Result<seq<Val>, SeriError> {
    if r.Err? then r else Ok(vals + r.value)
  }

  lemma PrependNothing(r: Result<seq<Val>, SeriError>)
    ensures Prepend([], r) == r
  {
    if r.Ok? { assert [] + r.value == r.value; }
  }

  lemma PrependMore(vals: seq<Val>, s: seq<Byte>)
    requires s != []
    ensures match Unpack(s)
            case Got(v, rest) => Prepend(vals, UnpackAll(s)) == Prepend(vals + [v], UnpackAll(rest))
            case Fail(e) => UnpackAll(s) == Err(e)
  {
    if Unpack(s).Got? && UnpackAll(s).Ok? {
      var v, more := Unpack(s).value, UnpackAll(Unpack(s).rest).value;
      assert vals + ([v] + more) == vals + [v] + more;
    }
  }

  /** What a writer that may fail did to the bytes written. */
  predicate Outcome(packed: Packed, error: Option<SeriError>, before: seq<Byte>, after: seq<Byte>) {
    match packed
    case Ok(bytes) => error == None && after == before + bytes
    case Err(e) => error == Some(e)
  }

  lemma ThenMore(done: seq<Byte>, e: seq<Byte>, more: Packed)
    ensures Then(Ok(done), Then(Ok(e), more)) == Then(Ok(done + e), more)
  {
    if more.Ok? {
      assert done + (e + more.value) == done + e + more.value;
    }
  }

  lemma Prefix(a: seq<Byte>, b: seq<Byte>, at: nat, n: nat)
    requires at + n <= |a| && at + n <= |b| && a[..at] == b[..at] && a[at..at + n] == b[at..at + n]
    ensures a[..at + n] == b[..at + n]
  {
    assert a[..at + n] == a[..at] + a[at..at + n] && b[..at + n] == b[..at] + b[at..at + n];
  }

  lemma ThenNothing(more: Packed)
    ensures Then(Ok([]), more) == more
  {
    if more.Ok? { assert [] + more.value == more.value; }
  }
}
