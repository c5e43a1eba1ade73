/** The serializer of Lua values (lua-seri.c): what packing writes, what unpacking builds,
    and the round trip between them.

    A source value has the shape Lua sees: a table has a border (lua_rawlen) and entries in
    the order of lua_next, array elements among them.  An unpacked value is its content:
    the table that a series of rawset calls builds, as a map.  Keys are not tables. */
module Serializer {
  import opened Prelude

  type Byte = x: int | 0 <= x < 256

  /** lua_rawlen as an int. */
  type Size = n: nat | n < 0x8000_0000

  const TypeNil := 0
  const TypeBoolean := 1
  const TypeNumber := 2
  const TypeUserdata := 3
  const TypeShortString := 4
  const TypeLongString := 5
  const TypeTable := 6

  const NumberZero := 0
  const NumberByte := 1
  const NumberWord := 2
  const NumberDword := 4
  const NumberQword := 6
  const NumberReal := 8

  const MaxCookie := 32
  const MaxDepth := 32

  /** Reals and light pointers are opaque: the eight bytes that memcpy moves. */
  datatype Atom =
    | Boolean(b: bool)
    | Integer(i: int)
    | Real(bits: seq<Byte>)
    | Pointer(bits: seq<Byte>)
    | Str(bytes: seq<Byte>)

  datatype Lua =
    | Nil
    | Single(a: Atom)
    | Table(border: Size, entries: seq<Entry>)
    | Unsupported   // functions, threads, full userdata

  datatype Entry = Entry(key: Atom, value: Lua)

  datatype Val = Nothing | Lone(a: Atom) | Map(m: map<Atom, Val>)

  datatype SeriError = TooDeep | UnsupportedType | InvalidStream | TableKey

  predicate Is64(bits: seq<Byte>) { |bits| == 8 }

  /** lua_Integer is 64 bits wide and lengths of strings fit an int. */
  predicate AtomOk(a: Atom) {
    match a
    case Boolean(_) => true
    case Integer(i) => -0x8000_0000_0000_0000 <= i < 0x8000_0000_0000_0000
    case Real(bits) => Is64(bits)
    case Pointer(bits) => Is64(bits)
    case Str(bytes) => |bytes| < 0x8000_0000
  }

  /** A Lua table: keys differ, and no value is nil. */
  predicate LuaOk(l: Lua) {
    match l
    case Single(a) => AtomOk(a)
    case Table(border, entries) =>
      && Distinct(Keys(entries))
      && forall k :: 0 <= k < |entries| ==>
           AtomOk(entries[k].key) && entries[k].value != Nil && LuaOk(entries[k].value)
    case _ => true
  }

  function Keys(entries: seq<Entry>): seq<Atom> {
    seq(|entries|, k requires 0 <= k < |entries| => entries[k].key)
  }

  predicate Distinct(keys: seq<Atom>) {
    forall j, k :: 0 <= j < k < |keys| ==> keys[j] != keys[k]
  }

  // ---- bytes ------------------------------------------------------------------------------

  function Pow256(k: nat): (r: nat)
    ensures r > 0
  {
    if k == 0 then 1 else 256 * Pow256(k - 1)
  }

  /** The k bytes of n, least significant first, as on the hosts of the source. */
  function Bytes(n: nat, k: nat): (r: seq<Byte>)
    ensures |r| == k
    decreases k, n
  {
    if k == 0 then [] else [n % 256] + Bytes(n / 256, k - 1)
  }

  function Number(s: seq<Byte>): nat {
    if s == [] then 0 else s[0] + 256 * Number(s[1..])
  }

  lemma {:induction false} NumberBytes(n: nat, k: nat)
    requires n < Pow256(k)
    ensures Number(Bytes(n, k)) == n
  {
    if k > 0 {
      assert Bytes(n, k)[1..] == Bytes(n / 256, k - 1);
      NumberBytes(n / 256, k - 1);
    }
  }

  lemma Powers()
    ensures Pow256(1) == 0x100 && Pow256(2) == 0x1_0000 && Pow256(4) == 0x1_0000_0000
    ensures Pow256(8) == 0x1_0000_0000_0000_0000
  {
    assert Pow256(4) == 256 * 256 * Pow256(2);
    assert Pow256(8) == 256 * 256 * 256 * 256 * Pow256(4);
  }

  lemma {:induction false} NumberBound(s: seq<Byte>)
    ensures Number(s) < Pow256(|s|)
  {
    if s != [] { NumberBound(s[1..]); }
  }

  /** Two's complement. */
  function Signed(n: int, range: nat): int { if n >= range / 2 then n - range else n }

  /** COMBINE_TYPE */
  function Tag(kind: nat, cookie: nat): Byte
    requires kind < 8 && cookie < 32
  {
    kind + 8 * cookie
  }

  // ---- packing ------------------------------------------------------------------------------

  /** wb_integer */
  function PackInteger(v: int): seq<Byte> {
    if v == 0 then [Tag(TypeNumber, NumberZero)]
    else if v < -0x8000_0000 || v >= 0x8000_0000 then
      [Tag(TypeNumber, NumberQword)] + Bytes(v % 0x1_0000_0000_0000_0000, 8)
    else if v < 0 then [Tag(TypeNumber, NumberDword)] + Bytes(v % 0x1_0000_0000, 4)
    else if v < 0x100 then [Tag(TypeNumber, NumberByte)] + Bytes(v, 1)
    else if v < 0x1_0000 then [Tag(TypeNumber, NumberWord)] + Bytes(v, 2)
    else [Tag(TypeNumber, NumberDword)] + Bytes(v, 4)
  }

  /** wb_string */
  function PackString(s: seq<Byte>): seq<Byte> {
    if |s| < MaxCookie then [Tag(TypeShortString, |s|)] + s
    else if |s| < 0x1_0000 then [Tag(TypeLongString, 2)] + Bytes(|s|, 2) + s
    else [Tag(TypeLongString, 4)] + Bytes(|s|, 4) + s
  }

  function PackAtom(a: Atom): seq<Byte> {
    match a
    case Boolean(b) => [Tag(TypeBoolean, if b then 1 else 0)]
    case Integer(i) => PackInteger(i)
    case Real(bits) => [Tag(TypeNumber, NumberReal)] + bits
    case Pointer(bits) => [Tag(TypeUserdata, 0)] + bits
    case Str(bytes) => PackString(bytes)
  }

  type Packed = Result<seq<Byte>, SeriError>

  function Then(a: Packed, b: Packed): Packed {
    if a.Err? then a else if b.Err? then b else Ok(a.value + b.value)
  }

  /** The place of a key, or the number of keys. */
  function Place(keys: seq<Atom>, key: Atom): (r: nat)
    ensures r <= |keys|
    ensures r < |keys| ==> keys[r] == key
    ensures forall k :: 0 <= k < r ==> keys[k] != key
  {
    if keys == [] then 0
    else if keys[0] == key then 0
    else
      var p := Place(keys[1..], key);
      assert forall k :: 0 < k < p + 1 ==> keys[k] == keys[1..][k - 1];
      p + 1
  }

  /** The tag of a table, followed by its array size when that does not fit the tag. */
  function TableHead(n: Size): seq<Byte> {
    if n >= MaxCookie - 1 then [Tag(TypeTable, MaxCookie - 1)] + PackInteger(n)
    else [Tag(TypeTable, n)]
  }

  /** wb_table_hash skips the keys that wb_table_array wrote. */
  predicate InArray(key: Atom, border: nat) {
    key.Integer? && 0 < key.i <= border
  }

  /** pack_one refuses anything too deep. */
  function Guard(depth: nat, bytes: seq<Byte>): Packed {
    if depth > MaxDepth then Err(TooDeep) else Ok(bytes)
  }

  /** pack_one */
  function Pack(l: Lua, depth: nat): Packed
    decreases l, 1
  {
    if depth > MaxDepth then Err(TooDeep)
    else
      match l
      case Nil => Ok([Tag(TypeNil, 0)])
      case Single(a) => Ok(PackAtom(a))
      case Table(border, entries) => PackTable(border, Keys(entries), PackValues(l, depth + 1), depth + 1)
      case Unsupported => Err(UnsupportedType)
  }

  function PackValues(l: Lua, depth: nat): seq<Packed>
    requires l.Table?
    decreases l, 0
  {
    seq(|l.entries|, k requires 0 <= k < |l.entries| => Pack(l.entries[k].value, depth))
  }

  /** wb_table, given what packing each of its values yields. */
  function PackTable(border: Size, keys: seq<Atom>, parts: seq<Packed>, depth: nat): Packed
    requires |parts| == |keys|
  {
    Then(Ok(TableHead(border)),
         Then(PackArray(border, keys, parts, 1, depth), PackHash(border, keys, parts, 0, depth)))
  }

  /** What lua_rawgeti finds at index i, packed. */
  function PackElement(keys: seq<Atom>, parts: seq<Packed>, i: nat, depth: nat): Packed
    requires |parts| == |keys|
  {
    var p := Place(keys, Integer(i));
    if p < |keys| then parts[p] else Guard(depth, [Tag(TypeNil, 0)])
  }

  /** The rest of wb_table_array from index i. */
  function PackArray(border: Size, keys: seq<Atom>, parts: seq<Packed>, i: nat, depth: nat): Packed
    requires |parts| == |keys|
    decreases if i <= border then border + 1 - i else 0
  {
    if i > border then Ok([])
    else Then(PackElement(keys, parts, i, depth), PackArray(border, keys, parts, i + 1, depth))
  }

  /** The rest of wb_table_hash from entry k, with the nil that ends it. */
  function PackHash(border: Size, keys: seq<Atom>, parts: seq<Packed>, k: nat, depth: nat): Packed
    requires k <= |parts| == |keys|
    decreases |keys| - k
  {
    if k == |keys| then Ok([Tag(TypeNil, 0)])
    else if InArray(keys[k], border) then PackHash(border, keys, parts, k + 1, depth)
    else Then(Guard(depth, PackAtom(keys[k])), Then(parts[k], PackHash(border, keys, parts, k + 1, depth)))
  }

  /** pack_from */
  function PackAll(ls: seq<Lua>): Packed {
    if ls == [] then Ok([]) else Then(Pack(ls[0], 0), PackAll(ls[1..]))
  }

  // ---- the bytes written ------------------------------------------------------------------------

  lemma {:induction false} BytesAt(n: nat, k: nat, i: nat)
    requires i < k
    ensures Bytes(n, k)[i] == n / Pow256(i) % 256
  {
    assert Bytes(n, k) == [n % 256] + Bytes(n / 256, k - 1);
    if i > 0 {
      BytesAt(n / 256, k - 1, i - 1);
      NestedDiv(n, 256, Pow256(i - 1));
    }
  }

  /** The first byte says the width, and then comes the number, negative ones in two's
      complement. */
  lemma IntegerBytes(v: int)
    requires AtomOk(Integer(v))
    ensures var r := PackInteger(v);
            if v == 0 then r == [0x02]
            else if 0 < v < 0x100 then r == [0x0A, v]
            else if 0 < v < 0x1_0000 then r == [0x12] + Bytes(v, 2)
            else if 0 < v < 0x8000_0000 then r == [0x22] + Bytes(v, 4)
            else if -0x8000_0000 <= v < 0 then r == [0x22] + Bytes(v + 0x1_0000_0000, 4)
            else r == [0x32] + Bytes(if v < 0 then v + 0x1_0000_0000_0000_0000 else v, 8)
  {
    if 0 < v < 0x100 {
      assert Bytes(v, 1) == [v % 256] + Bytes(v / 256, 0);
    } else if v < -0x8000_0000 {
      DivUnique(v, 0x1_0000_0000_0000_0000, -1, v + 0x1_0000_0000_0000_0000);
    } else if v < 0 {
      DivUnique(v, 0x1_0000_0000, -1, v + 0x1_0000_0000);
    } else if v >= 0x8000_0000 {
      DivUnique(v, 0x1_0000_0000_0000_0000, 0, v);
    }
  }

  lemma AtomBytes(a: Atom)
    requires AtomOk(a)
    ensures match a
            case Boolean(b) => PackAtom(a) == [if b then 0x09 else 0x01]
            case Integer(i) => PackAtom(a) == PackInteger(i)
            case Real(bits) => PackAtom(a) == [0x42] + bits
            case Pointer(bits) => PackAtom(a) == [0x03] + bits
            case Str(s) =>
              PackAtom(a) ==
                if |s| < 32 then [(4 + 8 * |s|) as Byte] + s
                else if |s| < 0x1_0000 then [0x15] + Bytes(|s|, 2) + s
                else [0x25] + Bytes(|s|, 4) + s
  {
  }

  /** A table starts with its array size, in its first byte when that is below 31. */
  lemma HeadBytes(n: Size)
    ensures TableHead(n) == if n < 31 then [(6 + 8 * n) as Byte] else [0xFE] + PackInteger(n)
  {
  }

  lemma {:induction false} HashEnds(border: Size, keys: seq<Atom>, parts: seq<Packed>, k: nat, depth: nat)
    requires k <= |parts| == |keys|
    ensures var r := PackHash(border, keys, parts, k, depth);
            r.Ok? ==> r.value != [] && r.value[|r.value| - 1] == 0x00
    decreases |keys| - k
  {
    if k < |keys| {
      HashEnds(border, keys, parts, k + 1, depth);
    }
  }

  /** A table has its head in front and a nil at its end, which is the byte 0. */
  lemma TableBytes(border: Size, keys: seq<Atom>, parts: seq<Packed>, depth: nat)
    requires |parts| == |keys|
    ensures var head, r := TableHead(border), PackTable(border, keys, parts, depth);
            r.Ok? ==> head <= r.value && |r.value| > |head| && r.value[|r.value| - 1] == 0x00
    ensures depth <= MaxDepth ==> Pack(Nil, depth) == Ok([0x00])
  {
    HashEnds(border, keys, parts, 0, depth);
  }

  // ---- unpacking ------------------------------------------------------------------------------

  /** What a reader made of the stream, and what it left of it. */
  datatype Read<+T> = Got(value: T, rest: seq<Byte>) | Fail(error: SeriError)

  /** rb_read */
  function Take(s: seq<Byte>, n: nat): (r: Read<seq<Byte>>)
    ensures r.Got? ==> |r.rest| + n == |s|
  {
    if |s| < n then Fail(InvalidStream) else Got(s[..n], s[n..])
  }

  /** get_integer */
  function GetInteger(s: seq<Byte>, cookie: nat): (r: Read<int>)
    ensures r.Got? ==> |r.rest| <= |s|
  {
    if cookie == NumberZero then Got(0, s)
    else if cookie == NumberByte then Fixed(s, 1, 0x200)
    else if cookie == NumberWord then Fixed(s, 2, 0x2_0000)
    else if cookie == NumberDword then Fixed(s, 4, 0x1_0000_0000)
    else if cookie == NumberQword then Fixed(s, 8, 0x1_0000_0000_0000_0000)
    else Fail(InvalidStream)
  }

  /** n bytes as a number, signed when range is what they can hold. */
  function Fixed(s: seq<Byte>, n: nat, range: nat): (r: Read<int>)
    ensures r.Got? ==> |r.rest| <= |s|
  {
    var got := Take(s, n);
    if got.Fail? then Fail(got.error) else Got(Signed(Number(got.value), range), got.rest)
  }

  /** The conversion of a lua_Integer to an int. */
  function ToInt(v: int): int { Signed(v % 0x1_0000_0000, 0x1_0000_0000) }

  /** lua_rawset with a key that is not a table. */
  function RawSet(m: map<Atom, Val>, key: Atom, v: Val): map<Atom, Val> {
    if v.Nothing? then m - {key} else m[key := v]
  }

  function Lift(r: Read<seq<Byte>>, make: seq<Byte> -> Atom): Read<Val> {
    if r.Fail? then Fail(r.error) else Got(Lone(make(r.value)), r.rest)
  }

  /** get_buffer after the length of a long string was read. */
  function GetLong(s: seq<Byte>, width: nat): (r: Read<Val>)
    ensures r.Got? ==> |r.rest| <= |s|
  {
    var len := Take(s, width);
    if len.Fail? then Fail(len.error)
    else Lift(Take(len.rest, Number(len.value)), b => Str(b))
  }

  /** push_value, for what is not a table. */
  function GetSingle(s: seq<Byte>, kind: nat, cookie: nat): (r: Read<Val>)
    ensures r.Got? ==> |r.rest| <= |s|
  {
    if kind == TypeNil then Got(Nothing, s)
    else if kind == TypeBoolean then Got(Lone(Boolean(cookie != 0)), s)
    else if kind == TypeNumber then
      if cookie == NumberReal then Lift(Take(s, 8), b => Real(b))
      else
        var got := GetInteger(s, cookie);
        if got.Fail? then Fail(got.error) else Got(Lone(Integer(got.value)), got.rest)
    else if kind == TypeUserdata then Lift(Take(s, 8), b => Pointer(b))
    else if kind == TypeShortString then Lift(Take(s, cookie), b => Str(b))
    else if kind == TypeLongString then
      if cookie == 2 then GetLong(s, 2) else if cookie == 4 then GetLong(s, 4) else Fail(InvalidStream)
    else Fail(InvalidStream)
  }

  /** The array size at the start of unpack_table. */
  function GetArraySize(s: seq<Byte>, cookie: nat): (r: Read<int>)
    ensures r.Got? ==> |r.rest| <= |s|
  {
    if cookie != MaxCookie - 1 then Got(cookie, s)
    else if s == [] then Fail(InvalidStream)
    else if s[0] % 8 != TypeNumber || s[0] / 8 == NumberReal then Fail(InvalidStream)
    else
      var got := GetInteger(s[1..], s[0] / 8);
      if got.Fail? then Fail(got.error) else Got(ToInt(got.value), got.rest)
  }

  /** unpack_one */
  function Unpack(s: seq<Byte>): (r: Read<Val>)
    ensures r.Got? ==> |r.rest| < |s|
    decreases |s|, 1
  {
    if s == [] then Fail(InvalidStream)
    else if s[0] % 8 == TypeTable then UnpackTable(s[1..], s[0] / 8)
    else GetSingle(s[1..], s[0] % 8, s[0] / 8)
  }

  /** unpack_table */
  function UnpackTable(s: seq<Byte>, cookie: nat): (r: Read<Val>)
    ensures r.Got? ==> |r.rest| < |s|
    decreases |s|, 3
  {
    var size := GetArraySize(s, cookie);
    if size.Fail? then Fail(size.error)
    else
      var part := UnpackArray(size.rest, map[], 1, size.value);
      if part.Fail? then Fail(part.error) else UnpackHash(part.rest, part.value)
  }

  /** The elements i to n of the array part. */
  function UnpackArray(s: seq<Byte>, m: map<Atom, Val>, i: int, n: int): (r: Read<map<Atom, Val>>)
    ensures r.Got? ==> |r.rest| <= |s|
    decreases |s|, 2
  {
    if i > n then Got(m, s)
    else
      var e := Unpack(s);
      if e.Fail? then Fail(e.error) else UnpackArray(e.rest, RawSet(m, Integer(i), e.value), i + 1, n)
  }

  /** The pairs up to the nil that ends them. */
  function UnpackHash(s: seq<Byte>, m: map<Atom, Val>): (r: Read<Val>)
    ensures r.Got? ==> |r.rest| < |s|
    decreases |s|, 2
  {
    var k := Unpack(s);
    if k.Fail? then Fail(k.error)
    else
      match k.value
      case Nothing => Got(Map(m), k.rest)
      case Map(_) => Fail(TableKey)
      case Lone(key) =>
        var v := Unpack(k.rest);
        if v.Fail? then Fail(v.error) else UnpackHash(v.rest, RawSet(m, key, v.value))
  }

  /** luaseri_unpack */
  function UnpackAll(s: seq<Byte>): (r: Result<seq<Val>, SeriError>)
    decreases |s|
  {
    if s == [] then Ok([])
    else
      var v := Unpack(s);
      if v.Fail? then Err(v.error)
      else
        var vs := UnpackAll(v.rest);
        if vs.Err? then vs else Ok([v.value] + vs.value)
  }

  // ---- content ----------------------------------------------------------------------------------

  /** What a value holds, apart from its layout. */
  function Content(l: Lua): Val
    decreases l, 1
  {
    match l
    case Nil => Nothing
    case Single(a) => Lone(a)
    case Table(_, entries) => Map(MapOf(Keys(entries), ContentValues(l)))
    case Unsupported => Nothing
  }

  function ContentValues(l: Lua): seq<Val>
    requires l.Table?
    decreases l, 0
  {
    seq(|l.entries|, k requires 0 <= k < |l.entries| => Content(l.entries[k].value))
  }

  /** The map that takes each key to its value; nothing is not a value. */
  function MapOf(keys: seq<Atom>, vals: seq<Val>): map<Atom, Val>
    requires |vals| == |keys|
  {
    map key | key in keys && ValueAt(keys, vals, key) != Nothing :: ValueAt(keys, vals, key)
  }

  function ValueAt(keys: seq<Atom>, vals: seq<Val>, key: Atom): Val
    requires |vals| == |keys|
  {
    var p := Place(keys, key);
    if p < |keys| then vals[p] else Nothing
  }

  // ---- what can be packed ---------------------------------------------------------------------------

  predicate Supported(l: Lua) {
    match l
    case Table(_, entries) => forall k :: 0 <= k < |entries| ==> Supported(entries[k].value)
    case Unsupported => false
    case _ => true
  }

  /** Tables nest at most d deep; an empty table adds nothing. */
  predicate NestsWithin(l: Lua, d: int) {
    match l
    case Table(border, entries) =>
      || (border == 0 && entries == [])
      || (d > 0 && forall k :: 0 <= k < |entries| ==> NestsWithin(entries[k].value, d - 1))
    case _ => true
  }

  predicate Packable(l: Lua, depth: nat) {
    depth <= MaxDepth && Supported(l) && NestsWithin(l, MaxDepth - depth)
  }

  lemma PlaceOf(keys: seq<Atom>, k: nat)
    requires Distinct(keys) && k < |keys|
    ensures Place(keys, keys[k]) == k
  {
  }

  predicate ArrayOk(border: Size, keys: seq<Atom>, parts: seq<Packed>, i: nat, depth: nat)
    requires |parts| == |keys|
  {
    && (i <= border ==> depth <= MaxDepth)
    && forall k :: 0 <= k < |keys| && InArray(keys[k], border) && keys[k].i >= i ==> parts[k].Ok?
  }

  predicate HashOk(border: Size, keys: seq<Atom>, parts: seq<Packed>, j: nat, depth: nat)
    requires |parts| == |keys|
  {
    forall k :: j <= k < |keys| && !InArray(keys[k], border) ==> depth <= MaxDepth && parts[k].Ok?
  }

  lemma {:induction false} PackArrayOk(border: Size, keys: seq<Atom>, parts: seq<Packed>, i: nat, depth: nat)
    requires |parts| == |keys| && Distinct(keys) && i >= 1
    requires depth > MaxDepth ==> forall k :: 0 <= k < |parts| ==> parts[k].Err?
    ensures PackArray(border, keys, parts, i, depth).Ok? <==> ArrayOk(border, keys, parts, i, depth)
    decreases if i <= border then border + 1 - i else 0
  {
    if i <= border {
      PackArrayOk(border, keys, parts, i + 1, depth);
      forall k | 0 <= k < |keys| && keys[k] == Integer(i) ensures k == Place(keys, Integer(i)) {
        PlaceOf(keys, k);
      }
    }
  }

  lemma {:induction false} PackHashOk(border: Size, keys: seq<Atom>, parts: seq<Packed>, k: nat, depth: nat)
    requires k <= |parts| == |keys|
    ensures PackHash(border, keys, parts, k, depth).Ok? <==> HashOk(border, keys, parts, k, depth)
    decreases |keys| - k
  {
    if k < |keys| {
      PackHashOk(border, keys, parts, k + 1, depth);
      var ok := InArray(keys[k], border) || (depth <= MaxDepth && parts[k].Ok?);
      assert HashOk(border, keys, parts, k, depth) <==> ok && HashOk(border, keys, parts, k + 1, depth) by {
        HashOkStep(border, keys, parts, k, depth);
      }
      assert PackHash(border, keys, parts, k, depth).Ok? <==> ok && PackHash(border, keys, parts, k + 1, depth).Ok? by {
        PackHashStep(border, keys, parts, k, depth);
      }
    }
  }

  lemma PackHashStep(border: Size, keys: seq<Atom>, parts: seq<Packed>, k: nat, depth: nat)
    requires k < |parts| == |keys|
    ensures PackHash(border, keys, parts, k, depth).Ok? <==>
              (InArray(keys[k], border) || (depth <= MaxDepth && parts[k].Ok?)) && PackHash(border, keys, parts, k + 1, depth).Ok?
  {
  }

  lemma HashOkStep(border: Size, keys: seq<Atom>, parts: seq<Packed>, k: nat, depth: nat)
    requires k < |parts| == |keys|
    ensures HashOk(border, keys, parts, k, depth) <==>
              (InArray(keys[k], border) || (depth <= MaxDepth && parts[k].Ok?)) && HashOk(border, keys, parts, k + 1, depth)
  {
  }

  /** A table packs exactly when all of its values do, and it has no elements too deep. */
  lemma PackTableOk(border: Size, keys: seq<Atom>, parts: seq<Packed>, depth: nat)
    requires |parts| == |keys| && Distinct(keys)
    requires depth > MaxDepth ==> forall k :: 0 <= k < |parts| ==> parts[k].Err?
    ensures PackTable(border, keys, parts, depth).Ok? <==>
              (border > 0 ==> depth <= MaxDepth) && forall k :: 0 <= k < |keys| ==> parts[k].Ok?
  {
    PackArrayOk(border, keys, parts, 1, depth);
    PackHashOk(border, keys, parts, 0, depth);
    if ArrayOk(border, keys, parts, 1, depth) && HashOk(border, keys, parts, 0, depth) {
      forall k | 0 <= k < |keys| ensures parts[k].Ok? {
        if !InArray(keys[k], border) {
          assert depth <= MaxDepth && parts[k].Ok?;
        }
      }
    }
  }

  predicate AllDistinct(l: Lua) {
    match l
    case Table(_, entries) =>
      Distinct(Keys(entries)) && forall k :: 0 <= k < |entries| ==> AllDistinct(entries[k].value)
    case _ => true
  }

  /** Packing fails exactly on what is of an unsupported type or too deep. */
  lemma {:induction false} PackableIff(l: Lua, depth: nat)
    requires AllDistinct(l)
    ensures Pack(l, depth).Ok? <==> Packable(l, depth)
  {
    if l.Table? && depth <= MaxDepth {
      var parts := PackValues(l, depth + 1);
      forall k | 0 <= k < |l.entries| ensures parts[k].Ok? <==> Packable(l.entries[k].value, depth + 1) {
        PackableIff(l.entries[k].value, depth + 1);
      }
      PackTableOk(l.border, Keys(l.entries), parts, depth + 1);
      if Pack(l, depth).Ok? && l.entries != [] {
        assert Packable(l.entries[0].value, depth + 1);
      }
    }
  }

  // ---- round trip of what is not a table ----------------------------------------------------------

  lemma FixedTrip(n: nat, k: nat, range: nat, rest: seq<Byte>)
    requires n < Pow256(k)
    ensures Fixed(Bytes(n, k) + rest, k, range) == Got(Signed(n, range), rest)
  {
    NumberBytes(n, k);
    assert (Bytes(n, k) + rest)[..k] == Bytes(n, k);
    assert (Bytes(n, k) + rest)[k..] == rest;
  }

  lemma SignedTrip(v: int, range: nat)
    requires range > 0 && range % 2 == 0 && v + range / 2 >= 0 && v < range / 2
    ensures Signed(v % range, range) == v
  {
    if v < 0 { DivUnique(v, range, -1, v + range); } else { DivUnique(v, range, 0, v); }
  }

  lemma TaggedTrip(cookie: nat, v: int, k: nat, range: nat, rest: seq<Byte>)
    requires cookie < 32 && range >= Pow256(k) && range % 2 == 0
    requires v + range / 2 >= 0 && v < range / 2 && (range == Pow256(k) || (range == 2 * Pow256(k) && 0 <= v))
    ensures var s := [Tag(TypeNumber, cookie)] + Bytes(v % range, k) + rest;
            s[0] == Tag(TypeNumber, cookie) && Fixed(s[1..], k, range) == Got(v, rest)
  {
    var s := [Tag(TypeNumber, cookie)] + Bytes(v % range, k) + rest;
    assert s[1..] == Bytes(v % range, k) + rest;
    SignedTrip(v, range);
    if 0 <= v { DivUnique(v, range, 0, v); }
    FixedTrip(v % range, k, range, rest);
  }

  /** Every width gives the integer back. */
  lemma IntegerTrip(v: int, rest: seq<Byte>)
    requires AtomOk(Integer(v))
    ensures IntegerTrips(v, rest)
  {
    if v == 0 {
      assert (PackInteger(v) + rest)[1..] == rest;
    } else if 0 < v < 0x1_0000 {
      SmallTrip(v, rest);
    } else {
      WideTrip(v, rest);
    }
  }

  predicate IntegerTrips(v: int, rest: seq<Byte>) {
    var s := PackInteger(v) + rest;
    && s[0] % 8 == TypeNumber && s[0] / 8 != NumberReal
    && GetInteger(s[1..], s[0] / 8) == Got(v, rest)
  }

  lemma SmallTrip(v: int, rest: seq<Byte>)
    requires 0 < v < 0x1_0000
    ensures IntegerTrips(v, rest)
  {
    Powers();
    if v < 0x100 {
      DivUnique(v, 0x200, 0, v);
      TaggedTrip(NumberByte, v, 1, 0x200, rest);
    } else {
      DivUnique(v, 0x2_0000, 0, v);
      TaggedTrip(NumberWord, v, 2, 0x2_0000, rest);
    }
  }

  lemma WideTrip(v: int, rest: seq<Byte>)
    requires AtomOk(Integer(v)) && !(0 <= v < 0x1_0000)
    ensures IntegerTrips(v, rest)
  {
    Powers();
    if v < -0x8000_0000 || v >= 0x8000_0000 {
      TaggedTrip(NumberQword, v, 8, 0x1_0000_0000_0000_0000, rest);
    } else {
      if v >= 0 { DivUnique(v, 0x1_0000_0000, 0, v); }
      TaggedTrip(NumberDword, v, 4, 0x1_0000_0000, rest);
    }
  }

  lemma TakeTrip(b: seq<Byte>, rest: seq<Byte>)
    ensures Take(b + rest, |b|) == Got(b, rest)
  {
    assert (b + rest)[..|b|] == b && (b + rest)[|b|..] == rest;
  }

  lemma LongTrip(b: seq<Byte>, width: nat, rest: seq<Byte>)
    requires |b| < Pow256(width)
    ensures GetLong(Bytes(|b|, width) + b + rest, width) == Got(Lone(Str(b)), rest)
  {
    var n := Bytes(|b|, width);
    assert n + b + rest == n + (b + rest);
    TakeTrip(n, b + rest);
    NumberBytes(|b|, width);
    TakeTrip(b, rest);
  }

  lemma LongTagTrip(b: seq<Byte>, width: nat, rest: seq<Byte>)
    requires |b| < Pow256(width) && (width == 2 || width == 4)
    ensures Unpack([Tag(TypeLongString, width)] + Bytes(|b|, width) + b + rest) == Got(Lone(Str(b)), rest)
  {
    var s := [Tag(TypeLongString, width)] + Bytes(|b|, width) + b + rest;
    assert s[1..] == Bytes(|b|, width) + b + rest;
    LongTrip(b, width, rest);
  }

  lemma StringTrip(b: seq<Byte>, rest: seq<Byte>)
    requires |b| < 0x8000_0000
    ensures Unpack(PackString(b) + rest) == Got(Lone(Str(b)), rest)
  {
    Powers();
    if |b| < MaxCookie {
      assert (PackString(b) + rest)[1..] == b + rest;
      TakeTrip(b, rest);
    } else if |b| < 0x1_0000 {
      LongTagTrip(b, 2, rest);
    } else {
      LongTagTrip(b, 4, rest);
    }
  }

  lemma AtomTrip(a: Atom, rest: seq<Byte>)
    requires AtomOk(a)
    ensures Unpack(PackAtom(a) + rest) == Got(Lone(a), rest)
  {
    var s := PackAtom(a) + rest;
    match a
    case Boolean(b) =>
      assert s[1..] == rest;
    case Integer(i) =>
      IntegerTrip(i, rest);
    case Real(bits) =>
      assert s[1..] == bits + rest;
      TakeTrip(bits, rest);
    case Pointer(bits) =>
      assert s[1..] == bits + rest;
      TakeTrip(bits, rest);
    case Str(bytes) =>
      StringTrip(bytes, rest);
  }

  lemma NilTrip(rest: seq<Byte>)
    ensures Unpack([Tag(TypeNil, 0)] + rest) == Got(Nothing, rest)
  {
    assert ([Tag(TypeNil, 0)] + rest)[1..] == rest;
  }

  /** The tag and the array size of a table. */
  lemma HeadTrip(n: Size, rest: seq<Byte>)
    ensures var s := TableHead(n) + rest;
            s[0] % 8 == TypeTable && GetArraySize(s[1..], s[0] / 8) == Got(n, rest)
  {
    var s := TableHead(n) + rest;
    if n >= MaxCookie - 1 {
      assert s[1..] == PackInteger(n) + rest;
      IntegerTrip(n, rest);
    } else {
      assert s[1..] == rest;
    }
  }

  // ---- the tables that unpacking builds -----------------------------------------------------------

  function At(m: map<Atom, Val>, key: Atom): Val {
    if key in m then m[key] else Nothing
  }

  predicate NoNothing(m: map<Atom, Val>) {
    forall key :: key in m ==> m[key] != Nothing
  }

  function AddArray(border: Size, keys: seq<Atom>, vals: seq<Val>, i: nat, m: map<Atom, Val>): map<Atom, Val>
    requires |vals| == |keys|
    decreases if i <= border then border + 1 - i else 0
  {
    if i > border then m
    else AddArray(border, keys, vals, i + 1, RawSet(m, Integer(i), ValueAt(keys, vals, Integer(i))))
  }

  function AddHash(border: Size, keys: seq<Atom>, vals: seq<Val>, k: nat, m: map<Atom, Val>): map<Atom, Val>
    requires k <= |vals| == |keys|
    decreases |keys| - k
  {
    if k == |keys| then m
    else if InArray(keys[k], border) then AddHash(border, keys, vals, k + 1, m)
    else AddHash(border, keys, vals, k + 1, RawSet(m, keys[k], vals[k]))
  }

  lemma RawSetAt(m: map<Atom, Val>, key: Atom, v: Val, other: Atom)
    ensures At(RawSet(m, key, v), other) == if other == key then v else At(m, other)
    ensures NoNothing(m) ==> NoNothing(RawSet(m, key, v))
  {
  }

  lemma {:induction false} AddArrayAt(border: Size, keys: seq<Atom>, vals: seq<Val>, i: nat, m: map<Atom, Val>, key: Atom)
    requires |vals| == |keys| && i >= 1 && NoNothing(m)
    ensures At(AddArray(border, keys, vals, i, m), key) ==
              if InArray(key, border) && key.i >= i then ValueAt(keys, vals, key) else At(m, key)
    ensures NoNothing(AddArray(border, keys, vals, i, m))
    decreases if i <= border then border + 1 - i else 0
  {
    if i <= border {
      RawSetAt(m, Integer(i), ValueAt(keys, vals, Integer(i)), key);
      AddArrayAt(border, keys, vals, i + 1, RawSet(m, Integer(i), ValueAt(keys, vals, Integer(i))), key);
    }
  }

  lemma {:induction false} AddHashAt(border: Size, keys: seq<Atom>, vals: seq<Val>, k: nat, m: map<Atom, Val>, key: Atom)
    requires k <= |vals| == |keys| && Distinct(keys) && NoNothing(m)
    ensures At(AddHash(border, keys, vals, k, m), key) ==
              if k <= Place(keys, key) < |keys| && !InArray(key, border) then ValueAt(keys, vals, key) else At(m, key)
    ensures NoNothing(AddHash(border, keys, vals, k, m))
    decreases |keys| - k
  {
    if k < |keys| {
      PlaceOf(keys, k);
      RawSetAt(m, keys[k], vals[k], key);
      AddHashAt(border, keys, vals, k + 1, if InArray(keys[k], border) then m else RawSet(m, keys[k], vals[k]), key);
    }
  }

  /** Setting the array elements, then the other entries, builds the whole table. */
  lemma Rebuilt(border: Size, keys: seq<Atom>, vals: seq<Val>)
    requires |vals| == |keys| && Distinct(keys)
    ensures AddHash(border, keys, vals, 0, AddArray(border, keys, vals, 1, map[])) == MapOf(keys, vals)
  {
    var a := AddArray(border, keys, vals, 1, map[]);
    var m, c := AddHash(border, keys, vals, 0, a), MapOf(keys, vals);
    AddArrayAt(border, keys, vals, 1, map[], Integer(0));
    AddHashAt(border, keys, vals, 0, a, Integer(0));
    forall key: Atom ensures At(m, key) == At(c, key) {
      AddArrayAt(border, keys, vals, 1, map[], key);
      AddHashAt(border, keys, vals, 0, a, key);
      var p := Place(keys, key);
      if p < |keys| { assert keys[p] in keys; }
    }
    SameAt(m, c);
  }

  lemma SameAt(m: map<Atom, Val>, c: map<Atom, Val>)
    requires NoNothing(m) && NoNothing(c)
    requires forall key :: At(m, key) == At(c, key)
    ensures m == c
  {
    forall key | key in m || key in c ensures key in m && key in c && m[key] == c[key] {
      assert At(m, key) == At(c, key);
    }
    assert m.Keys == c.Keys;
  }

  // ---- round trip -----------------------------------------------------------------------------------

  /** Whatever follows the bytes b, they unpack to v. */
  ghost predicate Trips(b: seq<Byte>, v: Val) {
    forall rest :: Unpack(b + rest) == Got(v, rest)
  }

  ghost predicate AllTrip(parts: seq<Packed>, vals: seq<Val>) {
    |vals| == |parts| && forall k :: 0 <= k < |parts| && parts[k].Ok? ==> Trips(parts[k].value, vals[k])
  }

  lemma UnpackArrayStep(s: seq<Byte>, m: map<Atom, Val>, i: int, n: int, v: Val, rest: seq<Byte>)
    requires i <= n && Unpack(s) == Got(v, rest)
    ensures UnpackArray(s, m, i, n) == UnpackArray(rest, RawSet(m, Integer(i), v), i + 1, n)
  {
  }

  lemma ElementTrip(keys: seq<Atom>, parts: seq<Packed>, vals: seq<Val>, i: nat, depth: nat, rest: seq<Byte>)
    requires |parts| == |keys| && AllTrip(parts, vals) && PackElement(keys, parts, i, depth).Ok?
    ensures Unpack(PackElement(keys, parts, i, depth).value + rest) == Got(ValueAt(keys, vals, Integer(i)), rest)
  {
    if Place(keys, Integer(i)) == |keys| {
      NilTrip(rest);
    }
  }

  lemma {:induction false} ArrayTrip(border: Size, keys: seq<Atom>, parts: seq<Packed>, vals: seq<Val>, i: nat,
                                     depth: nat, m: map<Atom, Val>, rest: seq<Byte>)
    requires |parts| == |keys| && AllTrip(parts, vals) && PackArray(border, keys, parts, i, depth).Ok?
    ensures UnpackArray(PackArray(border, keys, parts, i, depth).value + rest, m, i, border) ==
            Got(AddArray(border, keys, vals, i, m), rest)
    decreases if i <= border then border + 1 - i else 0
  {
    if i <= border {
      var e, more := PackElement(keys, parts, i, depth).value, PackArray(border, keys, parts, i + 1, depth).value;
      var v := ValueAt(keys, vals, Integer(i));
      Assoc(e, more, rest);
      ElementTrip(keys, parts, vals, i, depth, more + rest);
      UnpackArrayStep(e + (more + rest), m, i, border, v, more + rest);
      ArrayTrip(border, keys, parts, vals, i + 1, depth, RawSet(m, Integer(i), v), rest);
    } else {
      assert [] + rest == rest;
    }
  }

  lemma UnpackHashStep(s: seq<Byte>, m: map<Atom, Val>, key: Atom, s': seq<Byte>, v: Val, rest: seq<Byte>)
    requires Unpack(s) == Got(Lone(key), s') && Unpack(s') == Got(v, rest)
    ensures UnpackHash(s, m) == UnpackHash(rest, RawSet(m, key, v))
  {
  }

  lemma {:induction false} HashTrip(border: Size, keys: seq<Atom>, parts: seq<Packed>, vals: seq<Val>, k: nat,
                                    depth: nat, m: map<Atom, Val>, rest: seq<Byte>)
    requires k <= |parts| == |keys| && AllTrip(parts, vals) && PackHash(border, keys, parts, k, depth).Ok?
    requires forall j :: 0 <= j < |keys| ==> AtomOk(keys[j])
    ensures UnpackHash(PackHash(border, keys, parts, k, depth).value + rest, m) ==
            Got(Map(AddHash(border, keys, vals, k, m)), rest)
    decreases |keys| - k
  {
    if k == |keys| {
      NilTrip(rest);
    } else if InArray(keys[k], border) {
      HashTrip(border, keys, parts, vals, k + 1, depth, m, rest);
    } else {
      var key, value := PackAtom(keys[k]), parts[k].value;
      var more := PackHash(border, keys, parts, k + 1, depth).value;
      AtomTrip(keys[k], value + (more + rest));
      HashTrip(border, keys, parts, vals, k + 1, depth, RawSet(m, keys[k], vals[k]), rest);
      UnpackHashStep(key + (value + (more + rest)), m, keys[k], value + (more + rest), vals[k], more + rest);
      Assoc(key, value + more, rest);
      Assoc(value, more, rest);
    }
  }

  lemma UnpackTableStep(s: seq<Byte>, n: nat, s1: seq<Byte>, m: map<Atom, Val>, s2: seq<Byte>)
    requires s != [] && s[0] % 8 == TypeTable && GetArraySize(s[1..], s[0] / 8) == Got(n, s1)
    requires UnpackArray(s1, map[], 1, n) == Got(m, s2)
    ensures Unpack(s) == UnpackHash(s2, m)
  {
  }

  lemma TableTrip(border: Size, keys: seq<Atom>, parts: seq<Packed>, vals: seq<Val>, depth: nat, rest: seq<Byte>)
    requires |parts| == |keys| && AllTrip(parts, vals) && PackTable(border, keys, parts, depth).Ok?
    requires Distinct(keys)
    requires forall j :: 0 <= j < |keys| ==> AtomOk(keys[j])
    ensures Unpack(PackTable(border, keys, parts, depth).value + rest) == Got(Map(MapOf(keys, vals)), rest)
  {
    var head := TableHead(border);
    var part, hash := PackArray(border, keys, parts, 1, depth).value, PackHash(border, keys, parts, 0, depth).value;
    var m := AddArray(border, keys, vals, 1, map[]);
    Assoc(head, part + hash, rest);
    Assoc(part, hash, rest);
    HeadTrip(border, part + (hash + rest));
    ArrayTrip(border, keys, parts, vals, 1, depth, map[], hash + rest);
    UnpackTableStep(head + (part + (hash + rest)), border, part + (hash + rest), m, hash + rest);
    HashTrip(border, keys, parts, vals, 0, depth, m, rest);
    Rebuilt(border, keys, vals);
  }

  /** Unpacking what packing wrote, whatever follows it, gives the value's content. */
  lemma {:induction false} RoundTrip(l: Lua, depth: nat)
    requires LuaOk(l) && Pack(l, depth).Ok?
    ensures Trips(Pack(l, depth).value, Content(l))
  {
    match l
    case Nil =>
      forall rest ensures Unpack(Pack(l, depth).value + rest) == Got(Content(l), rest) { NilTrip(rest); }
    case Single(a) =>
      forall rest ensures Unpack(Pack(l, depth).value + rest) == Got(Content(l), rest) { AtomTrip(a, rest); }
    case Table(border, entries) =>
      var parts, vals := PackValues(l, depth + 1), ContentValues(l);
      forall k | 0 <= k < |parts| && parts[k].Ok? ensures Trips(parts[k].value, vals[k]) {
        RoundTrip(entries[k].value, depth + 1);
      }
      forall rest ensures Unpack(Pack(l, depth).value + rest) == Got(Content(l), rest) {
        TableTrip(border, Keys(entries), parts, vals, depth + 1, rest);
      }
  }

  /** A list of values packed together unpacks to their contents. */
  lemma {:induction false} AllRoundTrip(ls: seq<Lua>)
    requires (forall l :: l in ls ==> LuaOk(l)) && PackAll(ls).Ok?
    ensures UnpackAll(PackAll(ls).value) == Ok(Contents(ls))
  {
    if ls != [] {
      var rest := PackAll(ls[1..]).value;
      RoundTrip(ls[0], 0);
      assert Unpack(Pack(ls[0], 0).value + rest) == Got(Content(ls[0]), rest);
      AllRoundTrip(ls[1..]);
    }
  }

  function Contents(ls: seq<Lua>): seq<Val> {
    if ls == [] then [] else [Content(ls[0])] + Contents(ls[1..])
  }
}
