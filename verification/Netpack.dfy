/** Reassembling packages from socket data (lua-netpack.c): a hash table of incomplete
    packages and a growing ring of complete ones. */
module Netpack {
  import opened Prelude
  import opened Framing
  import RingQueue

  const QueueSize := 1024
  const HashSize := 4096

  datatype Package = Package(id: Fd, data: seq<Byte>)

  /** struct uncomplete: read is -1 when only the first length byte, header, is there;
      otherwise the size is known and the buffer holds `read` bytes. */
  datatype Uncomplete = Uncomplete(id: Fd, header: Byte, read: int, size: nat, buffer: seq<Byte>)

  predicate NodeOk(u: Uncomplete) {
    u.read == -1 || (u.read == |u.buffer| < u.size < 0x1_0000)
  }

  /** The bytes of the stream that a node stands for. */
  function Held(u: Uncomplete): seq<Byte> {
    if u.read < 0 || u.size >= 0x1_0000 then [u.header] else [u.size / 256, u.size % 256] + u.buffer
  }

  /** hash_fd: the shifts are arithmetic, the sum wraps. */
  function HashFd(fd: Fd): (h: nat)
    ensures h < HashSize
  {
    ((fd / 0x100_0000 + fd / 0x1000 + fd) % 0x1_0000_0000) % HashSize
  }

  // ---- the chain of one bucket ----------------------------------------------------------

  predicate ChainOk(chain: seq<Uncomplete>, h: nat) {
    && (forall i :: 0 <= i < |chain| ==> NodeOk(chain[i]) && HashFd(chain[i].id) == h)
    && (forall i, j :: 0 <= i < j < |chain| ==> chain[i].id != chain[j].id)
  }

  /** The place of the node of fd, or the length of the chain. */
  function Find(chain: seq<Uncomplete>, fd: Fd): (r: nat)
    ensures r <= |chain|
    ensures r < |chain| ==> chain[r].id == fd
    ensures forall i :: 0 <= i < r ==> chain[i].id != fd
  {
    if chain == [] || chain[0].id == fd then 0
    else
      var r := Find(chain[1..], fd);
      assert forall i :: 0 < i < r + 1 ==> chain[i] == chain[1..][i - 1];
      r + 1
  }

  /** What a chain has saved of the stream of fd. */
  function SavedIn(chain: seq<Uncomplete>, fd: Fd): seq<Byte> {
    var r := Find(chain, fd);
    if r < |chain| then Held(chain[r]) else []
  }

  lemma FindUnique(chain: seq<Uncomplete>, fd: Fd, r: nat)
    requires r <= |chain| && (r < |chain| ==> chain[r].id == fd)
    requires forall i :: 0 <= i < r ==> chain[i].id != fd
    ensures Find(chain, fd) == r
  {
    var f := Find(chain, fd);
    assert r < |chain| ==> f <= r;
  }

  lemma Unlinked(chain: seq<Uncomplete>, h: nat, r: nat)
    requires ChainOk(chain, h) && r < |chain|
    ensures var chain' := chain[..r] + chain[r + 1..];
            && ChainOk(chain', h)
            && SavedIn(chain', chain[r].id) == []
            && forall fd :: fd != chain[r].id ==> SavedIn(chain', fd) == SavedIn(chain, fd)
  {
    var chain' := chain[..r] + chain[r + 1..];
    FindUnique(chain', chain[r].id, |chain'|);
    forall fd | fd != chain[r].id ensures SavedIn(chain', fd) == SavedIn(chain, fd) {
      var f := Find(chain, fd);
      FindUnique(chain', fd, if f <= r then f else f - 1);
    }
  }

  lemma Linked(chain: seq<Uncomplete>, h: nat, u: Uncomplete)
    requires ChainOk(chain, h) && NodeOk(u) && HashFd(u.id) == h && SavedIn(chain, u.id) == []
    ensures ChainOk([u] + chain, h)
    ensures SavedIn([u] + chain, u.id) == Held(u)
    ensures forall fd :: fd != u.id ==> SavedIn([u] + chain, fd) == SavedIn(chain, fd)
  {
    FindUnique([u] + chain, u.id, 0);
    assert Find(chain, u.id) == |chain|;
    forall fd | fd != u.id ensures SavedIn([u] + chain, fd) == SavedIn(chain, fd) {
      FindUnique([u] + chain, fd, Find(chain, fd) + 1);
    }
  }

  function Tagged(fd: Fd, packages: seq<seq<Byte>>): seq<Package> {
    seq(|packages|, i requires 0 <= i < |packages| => Package(fd, packages[i]))
  }

  /** What filter_data tells its caller: nothing yet, one package, or packages to pop. */
  datatype Answer = Nothing | Data(data: seq<Byte>) | More

  class Queue {
    var cap: nat
    var head: nat
    var tail: nat
    var hash: array<seq<Uncomplete>>
    var queue: array<Package>

    ghost predicate Valid()
      reads this, hash
    {
      && cap == queue.Length && head < cap && tail < cap
      && hash.Length == HashSize
      && forall h :: 0 <= h < HashSize ==> ChainOk(hash[h], h)
    }

    /** The packages to pop, oldest first. */
    ghost function Pending(): (s: seq<Package>)
      requires Valid()
      reads this, hash, queue
    {
      if head <= tail then queue[head..tail] else queue[head..] + queue[..tail]
    }

    /** The bytes of the stream of fd that do not make a package yet. */
    ghost function Saved(fd: Fd): seq<Byte>
      requires Valid()
      reads this, hash
    {
      SavedIn(hash[HashFd(fd)], fd)
    }

    /** get_queue, the first time */
    constructor ()
      ensures Valid() && Pending() == [] && fresh(hash) && fresh(queue)
      ensures forall fd :: Saved(fd) == []
    {
      cap, head, tail := QueueSize, 0, 0;
      hash := new seq<Uncomplete>[HashSize](_ => []);
      queue := new Package[QueueSize](_ => Package(0, []));
    }

    /** find_uncomplete: takes the node out of its chain. */
    method FindUncomplete(fd: Fd) returns (u: Option<Uncomplete>)
      requires Valid()
      modifies hash
      ensures Valid() && Pending() == old(Pending()) && Saved(fd) == []
      ensures u == None ==> old(Saved(fd)) == []
      ensures u.Some? ==> NodeOk(u.value) && u.value.id == fd && Held(u.value) == old(Saved(fd))
      ensures forall o :: o != fd ==> Saved(o) == old(Saved(o))
    {
      var h := HashFd(fd);
      var chain := hash[h];
      var i := 0;
      while i < |chain|
        invariant 0 <= i <= |chain|
        invariant forall k :: 0 <= k < i ==> chain[k].id != fd
      {
        if chain[i].id == fd {
          FindUnique(chain, fd, i);
          Unlinked(chain, h, i);
          hash[h] := chain[..i] + chain[i + 1..];
          return Some(chain[i]);
        }
        i := i + 1;
      }
      FindUnique(chain, fd, |chain|);
      u := None;
    }

    /** Puts a node at the head of its chain, as save_uncomplete does. */
    method Link(u: Uncomplete)
      requires Valid() && NodeOk(u) && Saved(u.id) == []
      modifies hash
      ensures Valid() && Pending() == old(Pending()) && Saved(u.id) == Held(u)
      ensures forall o :: o != u.id ==> Saved(o) == old(Saved(o))
    {
      var h := HashFd(u.id);
      Linked(hash[h], h, u);
      hash[h] := [u] + hash[h];
    }

    /** expand_queue, when tail has met head. */
    method ExpandQueue()
      requires Valid() && head == tail
      modifies this`cap, this`head, this`tail, this`queue
      ensures Valid() && fresh(queue) && Pending() == old(queue[head..] + queue[..head])
      ensures forall o :: Saved(o) == old(Saved(o))
    {
      var bigger := new Package[cap + QueueSize](_ => Package(0, []));
      var i := 0;
      while i < cap
        modifies bigger
        invariant 0 <= i <= cap && fresh(bigger) && bigger.Length == cap + QueueSize
        invariant forall k :: 0 <= k < i ==> bigger[k] == (queue[head..] + queue[..head])[k]
      {
        RingQueue.RingIndex(head, i, cap);
        bigger[i] := queue[(head + i) % cap];
        i := i + 1;
      }
      assert bigger[..cap] == queue[head..] + queue[..head];
      queue, head, tail := bigger, 0, cap;
      cap := cap + QueueSize;
    }

    /** push_data */
    method PushData(fd: Fd, data: seq<Byte>)
      requires Valid()
      modifies this`cap, this`head, this`tail, this`queue, queue
      ensures Valid() && (queue == old(queue) || fresh(queue))
      ensures Pending() == old(Pending()) + [Package(fd, data)]
      ensures forall o :: Saved(o) == old(Saved(o))
    {
      queue[tail] := Package(fd, data);
      tail := tail + 1;
      if tail >= cap {
        tail := tail - cap;
      }
      if head == tail {
        ExpandQueue();
      }
    }

    /** lpop */
    method Pop() returns (p: Option<Package>)
      requires Valid()
      modifies this`head
      ensures Valid() && forall o :: Saved(o) == old(Saved(o))
      ensures if old(Pending()) == [] then p == None && Pending() == []
              else p == Some(old(Pending())[0]) && Pending() == old(Pending())[1..]
    {
      if head == tail {
        return None;
      }
      p := Some(queue[head]);
      head := head + 1;
      if head >= cap {
        head := 0;
      }
    }

    /** The node for a package of which only the first bytes are there. */
    method SavePart(fd: Fd, size: nat, have: seq<Byte>)
      requires Valid() && Saved(fd) == [] && |have| < size < 0x1_0000
      modifies hash
      ensures Valid() && Pending() == old(Pending()) && Saved(fd) == Stream(size, have)
      ensures forall o :: o != fd ==> Saved(o) == old(Saved(o))
    {
      Link(Uncomplete(fd, 0, |have|, size, have));
    }

    /** The node for a package of which only the first length byte is there. */
    method SaveHeader(fd: Fd, header: Byte)
      requires Valid() && Saved(fd) == []
      modifies hash
      ensures Valid() && Pending() == old(Pending()) && Saved(fd) == [header]
      ensures forall o :: o != fd ==> Saved(o) == old(Saved(o))
    {
      Link(Uncomplete(fd, header, -1, 0, []));
    }

    /** push_more */
    method PushMore(fd: Fd, buffer: seq<Byte>)
      requires Valid() && Saved(fd) == [] && buffer != []
      modifies this, hash, queue
      ensures Valid() && hash == old(hash) && (queue == old(queue) || fresh(queue))
      ensures Pending() == old(Pending()) + Tagged(fd, Parse(buffer).packages)
      ensures Saved(fd) == Parse(buffer).rest
      ensures forall o :: o != fd ==> Saved(o) == old(Saved(o))
      decreases |buffer|
    {
      if |buffer| == 1 {
        SaveHeader(fd, buffer[0]);
        return;
      }
      var size := ReadSize(buffer[0], buffer[1]);
      var data := buffer[2..];
      StreamOf(buffer);
      Filled(size, [], data);
      if |data| < size {
        SavePart(fd, size, data);
        return;
      }
      PushData(fd, data[..size]);
      assert [] + data[..size] == data[..size];
      Queued(old(Pending()), fd, data[..size], Parse(data[size..]).packages);
      if |data| > size {
        PushMore(fd, data[size..]);
      }
    }

    /** filter_data_; chunks are not empty. */
    method FilterData(fd: Fd, buffer: seq<Byte>) returns (answer: Answer)
      requires Valid() && buffer != []
      modifies this, hash, queue
      ensures Valid() && hash == old(hash) && (queue == old(queue) || fresh(queue))
      ensures var parsed := Parse(old(Saved(fd)) + buffer);
              && Saved(fd) == parsed.rest
              && answer == Expected(parsed)
              && Pending() == old(Pending()) + (if answer == More then Tagged(fd, parsed.packages) else [])
      ensures forall o :: o != fd ==> Saved(o) == old(Saved(o))
    {
      ghost var stream := Saved(fd) + buffer;
      var found := FindUncomplete(fd);
      if found.Some? {
        var u := found.value;
        var size, have, data := u.size, u.buffer, buffer;
        if u.read < 0 {
          size, have, data := ReadSize(u.header, buffer[0]), [], buffer[1..];
        }
        assert stream == Stream(size, have) + data;
        answer := Fill(fd, size, have, data);
      } else if |buffer| == 1 {
        assert stream == buffer;
        SaveHeader(fd, buffer[0]);
        answer := Nothing;
      } else {
        assert stream == buffer;
        StreamOf(buffer);
        answer := Fill(fd, ReadSize(buffer[0], buffer[1]), [], buffer[2..]);
      }
    }

    /** Both halves of filter_data_ once the size of the package is known: `have` of it was
        there before, `data` is what came. */
    method Fill(fd: Fd, size: nat, have: seq<Byte>, data: seq<Byte>) returns (answer: Answer)
      requires Valid() && Saved(fd) == [] && size < 0x1_0000 && |have| <= size
      modifies this, hash, queue
      ensures Valid() && hash == old(hash) && (queue == old(queue) || fresh(queue))
      ensures var parsed := Parse(Stream(size, have) + data);
              && Saved(fd) == parsed.rest
              && answer == Expected(parsed)
              && Pending() == old(Pending()) + (if answer == More then Tagged(fd, parsed.packages) else [])
      ensures forall o :: o != fd ==> Saved(o) == old(Saved(o))
    {
      var need := size - |have|;
      Filled(size, have, data);
      if |data| < need {
        SavePart(fd, size, have + data);
        answer := Nothing;
      } else if |data| == need {
        answer := Data(have + data[..need]);
      } else {
        PushData(fd, have + data[..need]);
        Queued(old(Pending()), fd, have + data[..need], Parse(data[need..]).packages);
        PushMore(fd, data[need..]);
        answer := More;
      }
    }

    /** close_uncomplete */
    method CloseUncomplete(fd: Fd)
      requires Valid()
      modifies hash
      ensures Valid() && Pending() == old(Pending()) && Saved(fd) == []
      ensures forall o :: o != fd ==> Saved(o) == old(Saved(o))
    {
      var u := FindUncomplete(fd);
    }
  }

  /** The bytes of a package of the given size, as far as they go. */
  function Stream(size: nat, have: seq<Byte>): seq<Byte>
    requires size < 0x1_0000
  {
    [size / 256, size % 256] + have
  }

  lemma StreamOf(buffer: seq<Byte>)
    requires |buffer| >= 2
    ensures buffer == Stream(ReadSize(buffer[0], buffer[1]), []) + buffer[2..]
  {
  }

  /** A single package that ends the chunk is handed over at once; any other packages are
      queued. */
  function Expected(parsed: Parsed): Answer {
    if parsed.packages == [] then Nothing
    else if |parsed.packages| == 1 && parsed.rest == [] then Data(parsed.packages[0])
    else More
  }

  lemma Queued(before: seq<Package>, fd: Fd, first: seq<Byte>, more: seq<seq<Byte>>)
    ensures before + Tagged(fd, [first] + more) == before + [Package(fd, first)] + Tagged(fd, more)
    ensures more == [] ==> before + Tagged(fd, [first] + more) == before + [Package(fd, first)]
  {
    assert Tagged(fd, [first] + more) == [Package(fd, first)] + Tagged(fd, more);
  }

  lemma Filled(size: nat, have: seq<Byte>, data: seq<Byte>)
    requires size < 0x1_0000 && |have| <= size
    ensures var s, need := Stream(size, have) + data, size - |have|;
            if |data| < need then Parse(s) == Parsed([], s) && s == Stream(size, have + data)
            else Parse(s) == Before([have + data[..need]], Parse(data[need..]))
  {
    var s, need := Stream(size, have) + data, size - |have|;
    assert s[0] == size / 256 && s[1] == size % 256;
    if |data| >= need {
      assert s[2..2 + size] == have + data[..need];
      assert s[2 + size..] == data[need..];
    }
  }

  // ---- a reader that pops what is queued before it goes on ---------------------------------

  datatype Event = Chunk(fd: Fd, bytes: seq<Byte>) | Closed(fd: Fd)

  /** What a run of events should have delivered of fd, and what is left to complete. */
  function Reader(events: seq<Event>, fd: Fd): Parsed {
    if events == [] then Parsed([], [])
    else
      var done, last := Reader(events[..|events| - 1], fd), events[|events| - 1];
      if last.fd != fd then done
      else
        match last
        case Chunk(_, bytes) => Before(done.packages, Parse(done.rest + bytes))
        case Closed(_) => Parsed(done.packages, [])
  }

  function ChunksOf(events: seq<Event>, fd: Fd): seq<seq<Byte>> {
    if events == [] then []
    else
      var last := events[|events| - 1];
      ChunksOf(events[..|events| - 1], fd) + if last.fd == fd && last.Chunk? then [last.bytes] else []
  }

  /** While fd is not closed, its packages are those of all its bytes in a row, whatever
      chunks they came in and whatever other streams came between. */
  lemma {:induction false} ReaderParses(events: seq<Event>, fd: Fd)
    requires forall e :: e in events ==> e != Closed(fd)
    ensures Reader(events, fd) == Parse(Concat(ChunksOf(events, fd)))
  {
    if events != [] {
      var front, last := events[..|events| - 1], events[|events| - 1];
      assert last in events && forall e :: e in front ==> e in events;
      ReaderParses(front, fd);
      if last.fd == fd {
        var chunks := ChunksOf(front, fd);
        assert ChunksOf(events, fd)[..|chunks|] == chunks;
        ParseSplit(Concat(chunks), last.bytes);
      } else {
        assert ChunksOf(events, fd) == ChunksOf(front, fd);
      }
    }
  }

  /** A closed stream starts anew. */
  lemma {:induction false} ReaderRestarts(before: seq<Event>, fd: Fd, after: seq<Event>)
    ensures var all := Reader(before + [Closed(fd)] + after, fd);
            all == Before(Reader(before, fd).packages, Reader(after, fd))
  {
    var all := before + [Closed(fd)] + after;
    if after == [] {
      assert all[..|all| - 1] == before;
      assert Reader(before, fd).packages + [] == Reader(before, fd).packages;
    } else {
      var front, last := after[..|after| - 1], after[|after| - 1];
      assert all[..|all| - 1] == before + [Closed(fd)] + front;
      ReaderRestarts(before, fd, front);
      if last.fd == fd && last.Chunk? {
        BeforeBefore(Reader(before, fd).packages, Reader(front, fd).packages, Parse(Reader(front, fd).rest + last.bytes));
      }
    }
  }

  /** The packages of fd among those delivered. */
  function Of(log: seq<Package>, fd: Fd): seq<seq<Byte>> {
    if log == [] then []
    else
      var last := log[|log| - 1];
      Of(log[..|log| - 1], fd) + if last.id == fd then [last.data] else []
  }

  lemma {:induction false} OfConcat(a: seq<Package>, b: seq<Package>, fd: Fd)
    ensures Of(a + b, fd) == Of(a, fd) + Of(b, fd)
  {
    if b == [] {
      assert a + b == a;
    } else {
      var front := b[..|b| - 1];
      assert (a + b)[..|a + b| - 1] == a + front;
      OfConcat(a, front, fd);
      var last := b[|b| - 1];
      Assoc(Of(a, fd), Of(front, fd), if last.id == fd then [last.data] else []);
    }
  }

  lemma {:induction false} OfTagged(fd: Fd, packages: seq<seq<Byte>>, o: Fd)
    ensures Of(Tagged(fd, packages), o) == if o == fd then packages else []
  {
    if packages != [] {
      var front := packages[..|packages| - 1];
      assert Tagged(fd, packages)[..|packages| - 1] == Tagged(fd, front);
      OfTagged(fd, front, o);
    }
  }

  /** Pops until nothing is queued. */
  method Drain(q: Queue) returns (popped: seq<Package>)
    requires q.Valid()
    modifies q`head
    ensures q.Valid() && q.Pending() == [] && popped == old(q.Pending())
    ensures forall fd :: q.Saved(fd) == old(q.Saved(fd))
  {
    popped := [];
    while true
      invariant q.Valid() && forall fd :: q.Saved(fd) == old(q.Saved(fd))
      invariant popped + q.Pending() == old(q.Pending())
      decreases |q.Pending()|
    {
      FirstOf(popped, q.Pending());
      var p := q.Pop();
      if p == None {
        return;
      }
      popped := popped + [p.value];
    }
  }

  lemma FirstOf(popped: seq<Package>, s: seq<Package>)
    ensures if s == [] then popped + s == popped else popped + s == popped + [s[0]] + s[1..]
  {
  }

  /** One chunk, and everything it completes. */
  method Feed(q: Queue, fd: Fd, bytes: seq<Byte>) returns (packages: seq<Package>)
    requires q.Valid() && q.Pending() == [] && bytes != []
    modifies q, q.hash, q.queue
    ensures q.Valid() && q.hash == old(q.hash) && (q.queue == old(q.queue) || fresh(q.queue)) && q.Pending() == []
    ensures var parsed := Parse(old(q.Saved(fd)) + bytes);
            packages == Tagged(fd, parsed.packages) && q.Saved(fd) == parsed.rest
    ensures forall o :: o != fd ==> q.Saved(o) == old(q.Saved(o))
  {
    ghost var parsed := Parse(q.Saved(fd) + bytes);
    var answer := q.FilterData(fd, bytes);
    match answer
    case Nothing =>
      packages := [];
    case Data(data) =>
      packages := [Package(fd, data)];
      assert Tagged(fd, parsed.packages) == packages;
    case More =>
      assert q.Pending() == Tagged(fd, parsed.packages);
      packages := Drain(q);
  }

  /** Any run of events delivers, for each stream, exactly its packages, in order. */
  method Run(events: seq<Event>) returns (log: seq<Package>)
    requires forall e :: e in events && e.Chunk? ==> e.bytes != []
    ensures forall fd :: Of(log, fd) == Reader(events, fd).packages
  {
    var q := new Queue();
    log := [];
    var i := 0;
    while i < |events|
      invariant 0 <= i <= |events|
      invariant q.Valid() && fresh(q) && fresh(q.hash) && fresh(q.queue) && q.Pending() == []
      invariant forall fd :: SoFar(q.Saved(fd), Of(log, fd), Reader(events[..i], fd))
    {
      assert events[..i + 1][..i] == events[..i] && events[i] in events;
      match events[i] {
        case Closed(fd) =>
          q.CloseUncomplete(fd);
        case Chunk(fd, bytes) =>
          ghost var parsed := Parse(q.Saved(fd) + bytes);
          assert SoFar(q.Saved(fd), Of(log, fd), Reader(events[..i], fd));
          var packages := Feed(q, fd, bytes);
          Delivered(log, log + packages, fd, parsed);
          log := log + packages;
      }
      i := i + 1;
    }
    assert events[..i] == events;
    forall fd ensures Of(log, fd) == Reader(events, fd).packages {
      assert SoFar(q.Saved(fd), Of(log, fd), Reader(events[..i], fd));
    }
  }

  predicate SoFar(saved: seq<Byte>, delivered: seq<seq<Byte>>, reader: Parsed) {
    saved == reader.rest && delivered == reader.packages
  }

  lemma Delivered(before: seq<Package>, log: seq<Package>, fd: Fd, parsed: Parsed)
    requires log == before + Tagged(fd, parsed.packages)
    ensures Of(log, fd) == Of(before, fd) + parsed.packages
    ensures forall o :: o != fd ==> Of(log, o) == Of(before, o)
  {
    forall o ensures Of(log, o) == Of(before, o) + if o == fd then parsed.packages else [] {
      OfConcat(before, Tagged(fd, parsed.packages), o);
      OfTagged(fd, parsed.packages, o);
    }
  }
}
