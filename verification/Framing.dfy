/** LF-terminated responses cut out of a TCP byte stream (transport/socket.py). */
module Framing {

  import opened Wrappers
  import opened Errors
  import opened Devices

  const LF: byte := 10

  /** What recv finds next: some bytes, none because the peer has closed, a timeout, or another failure. */
  datatype Event = Chunk(data: seq<byte>) | Stall | Broken(message: string)

  /** Why a read fails. A timeout tells how much had been received without LF. */
  datatype ReadFailure = Overflow | TimedOut(received: nat) | Lost(message: string) | Disconnected | Closed

  /** The first position of LF, or the length of the data. */
  function FirstLf(data: seq<byte>): (i: nat)
    ensures i <= |data|
    ensures i < |data| ==> data[i] == LF
    ensures forall j :: 0 <= j < i ==> data[j] != LF
  {
    if data == [] || data[0] == LF then 0 else 1 + FirstLf(data[1..])
  }

  /** The bytes that can be received before anything goes wrong. */
  function Ready(incoming: seq<Event>): seq<byte> {
    if incoming == [] || !incoming[0].Chunk? || incoming[0].data == [] then []
    else incoming[0].data + Ready(incoming[1..])
  }

  /** What goes wrong then; a stream on which nothing more arrives stalls. */
  function Obstacle(incoming: seq<Event>): Event {
    if incoming == [] then Stall
    else if !incoming[0].Chunk? || incoming[0].data == [] then incoming[0]
    else Obstacle(incoming[1..])
  }

  /** recv(n): at most n bytes of the next chunk; the rest of it stays. */
  function Recv(incoming: seq<Event>, n: nat): (Event, seq<Event>)
    requires n > 0
  {
    if incoming == [] then (Stall, [])
    else if incoming[0].Chunk? && |incoming[0].data| > n then
      (Chunk(incoming[0].data[..n]), [Chunk(incoming[0].data[n..])] + incoming[1..])
    else (incoming[0], incoming[1..])
  }

  function FailureOf(obstacle: Event, received: nat): ReadFailure {
    match obstacle
    case Stall => TimedOut(received)
    case Broken(message) => Lost(message)
    case Chunk(_) => Disconnected
  }

  datatype Reading = Reading(result: Result<seq<byte>, ReadFailure>, buffer: seq<byte>, incoming: seq<Event>)

  function Least(a: nat, b: nat): nat {
    if a < b then a else b
  }

  /** The loop of read. It ends because every turn that goes on leaves less room in the buffer. */
  function ReadLoop(buffer: seq<byte>, incoming: seq<Event>, limit: nat): Reading
    decreases limit - |buffer|
  {
    var marker := FirstLf(buffer);
    if marker < |buffer| then Reading(Success(buffer[..marker + 1]), buffer[marker + 1..], incoming)
    else if |buffer| >= limit then Reading(Failure(Overflow), buffer, incoming)
    else
      var (event, rest) := Recv(incoming, Least(4096, limit - |buffer|));
      if event.Chunk? && event.data != [] then ReadLoop(buffer + event.data, rest, limit)
      else Reading(Failure(FailureOf(event, |buffer|)), buffer, rest)
  }

  lemma FirstLfOfAppend(a: seq<byte>, b: seq<byte>)
    ensures FirstLf(a) < |a| ==> FirstLf(a + b) == FirstLf(a)
    ensures FirstLf(a) == |a| ==> FirstLf(a + b) == |a| + FirstLf(b)
  {
    var i, j := FirstLf(a), FirstLf(a + b);
    if i < |a| {
      assert (a + b)[i] == LF;
      assert forall k :: 0 <= k < i ==> (a + b)[k] == a[k];
    } else {
      assert forall k :: 0 <= k < |a| ==> (a + b)[k] == a[k];
      assert forall k :: 0 <= k < |b| ==> (a + b)[|a| + k] == b[k];
    }
  }

  lemma RecvKeepsStream(incoming: seq<Event>, n: nat)
    requires n > 0
    ensures
      var (event, rest) := Recv(incoming, n);
      if event.Chunk? && event.data != [] then
        |event.data| <= n && Ready(incoming) == event.data + Ready(rest) && Obstacle(incoming) == Obstacle(rest)
      else Ready(incoming) == [] && Obstacle(incoming) == event
  {
    if incoming != [] && incoming[0].Chunk? && |incoming[0].data| > n {
      var data, rest := incoming[0].data, [Chunk(incoming[0].data[n..])] + incoming[1..];
      assert rest[1..] == incoming[1..];
      assert data == data[..n] + data[n..];
      assert Ready(rest) == data[n..] + Ready(incoming[1..]);
    }
  }

  /** A read of a stream with these bytes pending before this obstacle: a line is returned exactly when its
      LF lies within the first `limit` pending bytes; no byte is lost, and the buffer stays within the limit. */
  ghost predicate Determined(pending: seq<byte>, obstacle: Event, limit: nat, r: Reading) {
    var marker := FirstLf(pending);
    && |r.buffer| <= limit
    && (marker < |pending| && marker < limit ==>
          && r.result == Success(pending[..marker + 1])
          && r.buffer + Ready(r.incoming) == pending[marker + 1..]
          && Obstacle(r.incoming) == obstacle)
    && (limit <= marker && limit <= |pending| ==>
          && r.result == Failure(Overflow) && r.buffer == pending[..limit]
          && r.buffer + Ready(r.incoming) == pending && Obstacle(r.incoming) == obstacle)
    && (marker == |pending| < limit ==>
          r.result == Failure(FailureOf(obstacle, |pending|)) && r.buffer == pending)
  }

  lemma LineInBuffer(buffer: seq<byte>, incoming: seq<Event>, limit: nat)
    requires |buffer| <= limit && FirstLf(buffer) < |buffer|
    ensures Determined(buffer + Ready(incoming), Obstacle(incoming), limit, ReadLoop(buffer, incoming, limit))
  {
    var pending, marker := buffer + Ready(incoming), FirstLf(buffer);
    FirstLfOfAppend(buffer, Ready(incoming));
    assert pending[..marker + 1] == buffer[..marker + 1];
    assert buffer[marker + 1..] + Ready(incoming) == pending[marker + 1..];
  }

  lemma BufferFull(buffer: seq<byte>, incoming: seq<Event>, limit: nat)
    requires |buffer| == limit && FirstLf(buffer) == |buffer|
    ensures Determined(buffer + Ready(incoming), Obstacle(incoming), limit, ReadLoop(buffer, incoming, limit))
  {
    var pending := buffer + Ready(incoming);
    FirstLfOfAppend(buffer, Ready(incoming));
    assert pending[..limit] == buffer;
  }

  /** What a read does depends only on the bytes pending, in the buffer or still to be received, and on what
      comes after them, not on how they are cut into chunks. */
  lemma {:induction false} ReadIsDetermined(buffer: seq<byte>, incoming: seq<Event>, limit: nat)
    requires |buffer| <= limit
    ensures Determined(buffer + Ready(incoming), Obstacle(incoming), limit, ReadLoop(buffer, incoming, limit))
    decreases limit - |buffer|
  {
    if FirstLf(buffer) < |buffer| {
      LineInBuffer(buffer, incoming, limit);
    } else if |buffer| >= limit {
      BufferFull(buffer, incoming, limit);
    } else {
      var n := Least(4096, limit - |buffer|);
      RecvKeepsStream(incoming, n);
      var (event, rest) := Recv(incoming, n);
      if event.Chunk? && event.data != [] {
        assert buffer + Ready(incoming) == (buffer + event.data) + Ready(rest);
        ReadIsDetermined(buffer + event.data, rest, limit);
      } else {
        assert buffer + Ready(incoming) == buffer;
      }
    }
  }

  /** Two readings alike: the same line or failure, and the same bytes still pending before the same
      obstacle, or the same bytes kept in the buffer after a failure. */
  ghost predicate Alike(r1: Reading, r2: Reading) {
    && r1.result == r2.result
    && (r1.result.Success? || r1.result.error == Overflow ==>
          r1.buffer + Ready(r1.incoming) == r2.buffer + Ready(r2.incoming)
          && Obstacle(r1.incoming) == Obstacle(r2.incoming))
    && (r1.result.Failure? ==> r1.buffer == r2.buffer)
  }

  lemma DeterminedAlike(pending: seq<byte>, obstacle: Event, limit: nat, r1: Reading, r2: Reading)
    requires Determined(pending, obstacle, limit, r1) && Determined(pending, obstacle, limit, r2)
    ensures Alike(r1, r2)
  {
  }

  /** Two streams that carry the same bytes, cut differently, before the same obstacle give the same lines
      and failures, read after read. */
  lemma ChunkingDoesNotMatter(b1: seq<byte>, i1: seq<Event>, b2: seq<byte>, i2: seq<Event>, limit: nat)
    requires |b1| <= limit && |b2| <= limit
    requires b1 + Ready(i1) == b2 + Ready(i2) && Obstacle(i1) == Obstacle(i2)
    ensures Alike(ReadLoop(b1, i1, limit), ReadLoop(b2, i2, limit))
  {
    ReadIsDetermined(b1, i1, limit);
    ReadIsDetermined(b2, i2, limit);
    DeterminedAlike(b1 + Ready(i1), Obstacle(i1), limit, ReadLoop(b1, i1, limit), ReadLoop(b2, i2, limit));
  }

  // ----- successive reads -----

  /** The complete lines of a byte stream, each with its LF. */
  function LinesIn(data: seq<byte>): seq<seq<byte>>
    decreases |data|
  {
    var marker := FirstLf(data);
    if marker == |data| then [] else [data[..marker + 1]] + LinesIn(data[marker + 1..])
  }

  function Concat(lines: seq<seq<byte>>): seq<byte> {
    if lines == [] then [] else lines[0] + Concat(lines[1..])
  }

  /** The lines given by n reads in a row, and what is left; the first failure ends it. */
  function ReadMany(buffer: seq<byte>, incoming: seq<Event>, limit: nat, n: nat): (seq<seq<byte>>, Reading)
    requires |buffer| <= limit
    decreases n
  {
    if n == 0 then ([], Reading(Success([]), buffer, incoming))
    else
      ReadIsDetermined(buffer, incoming, limit);
      var r := ReadLoop(buffer, incoming, limit);
      if r.result.Failure? then ([], r)
      else
        var (lines, last) := ReadMany(r.buffer, r.incoming, limit, n - 1);
        ([r.result.value] + lines, last)
  }

  lemma FirstOfLines(pending: seq<byte>)
    requires LinesIn(pending) != []
    ensures
      var marker := FirstLf(pending);
      && marker < |pending|
      && LinesIn(pending)[0] == pending[..marker + 1] && LinesIn(pending)[1..] == LinesIn(pending[marker + 1..])
  {
    var marker := FirstLf(pending);
    var rest := LinesIn(pending[marker + 1..]);
    assert LinesIn(pending) == [pending[..marker + 1]] + rest;
    assert ([pending[..marker + 1]] + rest)[1..] == rest;
  }

  lemma ConcatCons(line: seq<byte>, lines: seq<seq<byte>>, tail: seq<byte>)
    ensures Concat([line] + lines) + tail == line + (Concat(lines) + tail)
  {
    assert ([line] + lines)[1..] == lines;
  }

  /** The first read takes the first line off the stream. */
  lemma FirstRead(buffer: seq<byte>, incoming: seq<Event>, limit: nat)
    requires |buffer| <= limit && LinesIn(buffer + Ready(incoming)) != []
    requires |LinesIn(buffer + Ready(incoming))[0]| <= limit
    ensures
      var pending := buffer + Ready(incoming);
      var r := ReadLoop(buffer, incoming, limit);
      && |r.buffer| <= limit && r.result == Success(LinesIn(pending)[0])
      && LinesIn(r.buffer + Ready(r.incoming)) == LinesIn(pending)[1..]
      && LinesIn(pending)[0] + (r.buffer + Ready(r.incoming)) == pending
  {
    ReadIsDetermined(buffer, incoming, limit);
    FirstLineTaken(buffer + Ready(incoming), Obstacle(incoming), limit, ReadLoop(buffer, incoming, limit));
  }

  lemma FirstLineTaken(pending: seq<byte>, obstacle: Event, limit: nat, r: Reading)
    requires Determined(pending, obstacle, limit, r) && LinesIn(pending) != [] && |LinesIn(pending)[0]| <= limit
    ensures |r.buffer| <= limit && r.result == Success(LinesIn(pending)[0])
    ensures LinesIn(r.buffer + Ready(r.incoming)) == LinesIn(pending)[1..]
    ensures LinesIn(pending)[0] + (r.buffer + Ready(r.incoming)) == pending
  {
    FirstOfLines(pending);
    assert pending[..FirstLf(pending) + 1] + pending[FirstLf(pending) + 1..] == pending;
  }

  /** As many reads as there are complete lines, none longer than the limit, return exactly these lines, and
      leave exactly the rest of the stream. */
  lemma {:induction false} ReadsSplitTheStream(buffer: seq<byte>, incoming: seq<Event>, limit: nat, lines: seq<seq<byte>>)
    requires |buffer| <= limit && lines == LinesIn(buffer + Ready(incoming))
    requires forall i :: 0 <= i < |lines| ==> |lines[i]| <= limit
    ensures
      var (got, last) := ReadMany(buffer, incoming, limit, |lines|);
      && got == lines && last.result.Success?
      && Concat(lines) + (last.buffer + Ready(last.incoming)) == buffer + Ready(incoming)
    decreases |lines|
  {
    if lines == [] {
      assert Concat(lines) + (buffer + Ready(incoming)) == buffer + Ready(incoming);
    } else {
      var line, rest := lines[0], lines[1..];
      FirstRead(buffer, incoming, limit);
      var r := ReadLoop(buffer, incoming, limit);
      ReadsSplitTheStream(r.buffer, r.incoming, limit, rest);
      var last := ReadMany(r.buffer, r.incoming, limit, |rest|).1;
      ConcatCons(line, rest, last.buffer + Ready(last.incoming));
      assert lines == [line] + rest;
    }
  }

  // ----- the transport -----

  lemma CutAt(before: seq<byte>, data: seq<byte>, n: nat)
    requires n <= |data|
    ensures (before + data[..n]) + data[n..] == before + data
  {
  }

  lemma Joined(a: seq<byte>, b: seq<byte>, c: seq<byte>)
    ensures a + (b + c) == (a + b) + c
  {
  }

  class SocketTransport {
    const limit: nat
    var buffer: seq<byte>
    var closed: bool
    var incoming: seq<Event>
    ghost var received: seq<byte>
    ghost var returned: seq<byte>

    /** Nothing received is lost, duplicated or reordered; the buffer stays within the limit. */
    ghost predicate Valid()
      reads this
    {
      returned + buffer == received && |buffer| <= limit
    }

    constructor (limit: nat, incoming: seq<Event>)
      ensures Valid() && this.limit == limit && this.incoming == incoming && !closed && buffer == []
      ensures received == [] && returned == []
    {
      this.limit, this.incoming, buffer, closed, received, returned := limit, incoming, [], false, [], [];
    }

    method Receive(n: nat) returns (event: Event)
      requires n > 0
      modifies this`incoming
      ensures (event, incoming) == Recv(old(incoming), n)
    {
      var (e, rest) := Recv(incoming, n);
      event, incoming := e, rest;
    }

    /** read: the next line with its LF, or why there is none. */
    method Read() returns (result: Result<seq<byte>, ReadFailure>)
      requires Valid()
      modifies this`buffer, this`incoming, this`received, this`returned
      ensures Valid()
      ensures closed ==> result == Failure(Closed) && unchanged(this)
      ensures !closed ==> Reading(result, buffer, incoming) == ReadLoop(old(buffer), old(incoming), limit)
      ensures old(received) <= received
      ensures returned == old(returned) + if result.Success? then result.value else []
    {
      if closed {
        return Failure(Closed);
      }
      while true
        invariant Valid() && old(received) <= received && returned == old(returned)
        invariant ReadLoop(buffer, incoming, limit) == ReadLoop(old(buffer), old(incoming), limit)
        decreases limit - |buffer|
      {
        var marker := FirstLf(buffer);
        if marker < |buffer| {
          CutAt(returned, buffer, marker + 1);
          result := Success(buffer[..marker + 1]);
          returned := returned + buffer[..marker + 1];
          buffer := buffer[marker + 1..];
          return;
        }
        if |buffer| >= limit {
          return Failure(Overflow);
        }
        var event := Receive(Least(4096, limit - |buffer|));
        if !event.Chunk? || event.data == [] {
          return Failure(FailureOf(event, |buffer|));
        }
        Joined(returned, buffer, event.data);
        buffer := buffer + event.data;
        received := received + event.data;
      }
    }

    method Close()
      modifies this`closed
      ensures closed
    {
      closed := true;
    }
  }

}
