/** The frames of netpack (lua-netpack.c): two bytes of length, most significant first,
    then that many bytes.  What a stream of bytes means, whatever chunks it comes in. */
module Framing {
  import opened Prelude

  type Byte = x: int | 0 <= x < 256

  type Fd = int

  /** read_size */
  function ReadSize(high: Byte, low: Byte): nat { 256 * high + low }

  /** lpack, with write_size */
  function Pack(data: seq<Byte>): Option<seq<Byte>> {
    if |data| >= 0x1_0000 then None else Some([|data| / 256, |data| % 256] + data)
  }

  /** A packed message is its length in two bytes, most significant first, and its data;
      read_size reads those bytes so; longer messages are refused. */
  lemma PackedBytes(data: seq<Byte>)
    ensures Pack(data) == None <==> |data| > 0xFFFF
    ensures |data| <= 0xFFFF ==>
              && Pack(data).Some?
              && var s := Pack(data).value;
                 && |s| == |data| + 2 && s[2..] == data
                 && |data| == 0x100 * (s[0] as int) + s[1] as int && ReadSize(s[0], s[1]) == |data|
  {
  }

  /** The packages of a stream, and the bytes left that do not make one yet. */
  datatype Parsed = Parsed(packages: seq<seq<Byte>>, rest: seq<Byte>)

  function Before(packages: seq<seq<Byte>>, p: Parsed): Parsed {
    Parsed(packages + p.packages, p.rest)
  }

  predicate Whole(s: seq<Byte>) {
    |s| >= 2 && |s| >= 2 + ReadSize(s[0], s[1])
  }

  function Parse(s: seq<Byte>): Parsed {
    if !Whole(s) then Parsed([], s)
    else
      var n := ReadSize(s[0], s[1]);
      Before([s[2..2 + n]], Parse(s[2 + n..]))
  }

  lemma {:induction false} RestIsPartial(s: seq<Byte>)
    ensures !Whole(Parse(s).rest)
  {
    if Whole(s) {
      RestIsPartial(s[2 + ReadSize(s[0], s[1])..]);
    }
  }

  lemma BeforeBefore(p: seq<seq<Byte>>, q: seq<seq<Byte>>, r: Parsed)
    ensures Before(p, Before(q, r)) == Before(p + q, r)
  {
    assert p + (q + r.packages) == p + q + r.packages;
  }

  lemma BeforeNothing(r: Parsed)
    ensures Before([], r) == r
  {
    assert [] + r.packages == r.packages;
  }

  /** The first package of a stream that starts with a whole one. */
  lemma FirstPackage(a: seq<Byte>, b: seq<Byte>)
    requires Whole(a)
    ensures var n := ReadSize(a[0], a[1]);
            Parse(a + b) == Before([a[2..2 + n]], Parse(a[2 + n..] + b))
  {
    var n := ReadSize(a[0], a[1]);
    assert (a + b)[2..2 + n] == a[2..2 + n] && (a + b)[2 + n..] == a[2 + n..] + b;
  }

  /** Parsing a stream in two parts, the second after what the first left over, is parsing
      it whole. */
  lemma {:induction false} ParseSplit(a: seq<Byte>, b: seq<Byte>)
    ensures Parse(a + b) == Before(Parse(a).packages, Parse(Parse(a).rest + b))
  {
    if Whole(a) {
      var n := ReadSize(a[0], a[1]);
      var first, more := a[2..2 + n], a[2 + n..];
      FirstPackage(a, b);
      ParseSplit(more, b);
      BeforeBefore([first], Parse(more).packages, Parse(Parse(more).rest + b));
    } else {
      BeforeNothing(Parse(a + b));
    }
  }

  /** What a reader that keeps the rest of each chunk has parsed of the chunks. */
  function ParseChunks(chunks: seq<seq<Byte>>): Parsed {
    if chunks == [] then Parsed([], [])
    else
      var done := ParseChunks(chunks[..|chunks| - 1]);
      Before(done.packages, Parse(done.rest + chunks[|chunks| - 1]))
  }

  /** However a stream is cut into chunks, the packages and the rest are those of the whole. */
  lemma {:induction false} ChunksDoNotMatter(chunks: seq<seq<Byte>>)
    ensures ParseChunks(chunks) == Parse(Concat(chunks))
  {
    if chunks != [] {
      var front, last := chunks[..|chunks| - 1], chunks[|chunks| - 1];
      ChunksDoNotMatter(front);
      ParseSplit(Concat(front), last);
    }
  }

  function PackAll(messages: seq<seq<Byte>>): seq<Byte>
    requires forall m :: m in messages ==> |m| < 0x1_0000
  {
    if messages == [] then [] else Pack(messages[0]).value + PackAll(messages[1..])
  }

  lemma {:induction false} ParsePacked(messages: seq<seq<Byte>>)
    requires forall m :: m in messages ==> |m| < 0x1_0000
    ensures Parse(PackAll(messages)) == Parsed(messages, [])
  {
    if messages != [] {
      var m, rest := messages[0], PackAll(messages[1..]);
      var s := [|m| / 256, |m| % 256] + m + rest;
      assert PackAll(messages) == s;
      assert s[0] == |m| / 256 && s[1] == |m| % 256;
      assert s[2..2 + |m|] == m && s[2 + |m|..] == rest;
      ParsePacked(messages[1..]);
    }
  }

  /** Any chunks that packed messages travel in give back the messages, and leave nothing. */
  lemma PackedTravels(messages: seq<seq<Byte>>, chunks: seq<seq<Byte>>)
    requires forall m :: m in messages ==> |m| < 0x1_0000
    requires Concat(chunks) == PackAll(messages)
    ensures ParseChunks(chunks) == Parsed(messages, [])
  {
    ChunksDoNotMatter(chunks);
    ParsePacked(messages);
  }
}
