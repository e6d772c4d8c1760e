module Transport {
  /** Length-prefixed messages on a byte stream: the two senders (cpp/src/ServiceTracer.cpp, tracer/perfetto_socket.py) and the
      receiving server (tracer/socket_server.py). */

  import opened Basics

  type Byte = b: nat | b < 256
  type Message = seq<Byte>

  /** The width of the length field and the number of lengths it can hold. */
  const FIELD := 4
  const LIMIT := 0x1_0000_0000

  // ------------------------------------------------------------ big-endian numbers

  function FromBytes(s: seq<Byte>): nat {
    if s == [] then 0 else FromBytes(s[..|s| - 1]) * 256 + s[|s| - 1]
  }

  /** The `width` low bytes of n, the highest of them first. */
  function ToBytes(n: nat, width: nat): (s: seq<Byte>)
    ensures |s| == width
  {
    if width == 0 then [] else ToBytes(n / 256, width - 1) + [n % 256]
  }

  function Span(width: nat): nat {
    if width == 0 then 1 else 256 * Span(width - 1)
  }

  lemma {:induction false} FromTo(n: nat, width: nat)
    requires n < Span(width)
    ensures FromBytes(ToBytes(n, width)) == n
  {
    if width > 0 {
      FromTo(n / 256, width - 1);
      var s := ToBytes(n / 256, width - 1);
      assert (s + [n % 256])[..width - 1] == s;
    }
  }

  lemma SpanOfField()
    ensures Span(FIELD) == LIMIT
  {
    assert Span(1) == 256 && Span(2) == 0x1_0000 && Span(3) == 0x100_0000;
  }

  /** The four bytes of the length field. */
  lemma FieldBytes(n: nat)
    requires n < 0x1_0000_0000
    ensures ToBytes(n, FIELD) == [n / 0x100_0000, n / 0x1_0000 % 256, n / 256 % 256, n % 256]
  {
    assert ToBytes(n / 0x100_0000, 0) == [];
    assert n / 256 / 256 == n / 0x1_0000 && n / 0x1_0000 / 256 == n / 0x100_0000;
    assert ToBytes(n / 0x1_0000 / 256, 1) == [n / 0x100_0000 % 256];
    assert ToBytes(n / 0x1_0000, 2) == [n / 0x100_0000 % 256, n / 0x1_0000 % 256];
    assert ToBytes(n / 256, 3) == [n / 0x100_0000 % 256, n / 0x1_0000 % 256, n / 256 % 256];
  }

  // ------------------------------------------------------------ frames

  /** The cast to 32 bits wraps around. */
  function Frame(m: Message): (s: seq<Byte>)
    ensures |s| == FIELD + |m|
  {
    ToBytes(|m| % LIMIT, FIELD) + m
  }

  function Stream(ms: seq<Message>): seq<Byte> {
    if ms == [] then [] else Frame(ms[0]) + Stream(ms[1..])
  }

  datatype Decoded = Decoded(frames: seq<Message>, rest: seq<Byte>)

  /** What a stream contains: the complete frames at its front, and the bytes after them. */
  function Decode(s: seq<Byte>): Decoded
    decreases |s|
  {
    if |s| < FIELD then Decoded([], s)
    else
      var n := FromBytes(s[..FIELD]);
      if |s| < FIELD + n then Decoded([], s)
      else
        var r := Decode(s[FIELD + n..]);
        Decoded([s[FIELD..FIELD + n]] + r.frames, r.rest)
  }

  ghost predicate Gives(s: seq<Byte>, ms: seq<Message>, rest: seq<Byte>) {
    Decode(s).frames == ms && Decode(s).rest == rest
  }

  lemma DecodeFrame(m: Message, s: seq<Byte>)
    requires |m| < LIMIT
    ensures Gives(Frame(m) + s, [m] + Decode(s).frames, Decode(s).rest)
  {
    hide ToBytes, FromBytes;
    var t := Frame(m) + s;
    SpanOfField();
    FromTo(|m|, FIELD);
    assert t[..FIELD] == ToBytes(|m|, FIELD);
    assert t[FIELD..FIELD + |m|] == m;
    assert t[FIELD + |m|..] == s;
  }

  lemma NothingDecoded()
    ensures Gives([], [], [])
  {
  }

  /** A complete frame at the front. */
  ghost predicate FrameFront(s: seq<Byte>) {
    |s| >= FIELD && |s| >= FIELD + FromBytes(s[..FIELD])
  }

  lemma DecodeFront(s: seq<Byte>)
    ensures if FrameFront(s) then
              var n := FromBytes(s[..FIELD]);
              Decode(s) == Decoded([s[FIELD..FIELD + n]] + Decode(s[FIELD + n..]).frames, Decode(s[FIELD + n..]).rest)
            else Decode(s) == Decoded([], s)
  {
    hide FromBytes;
  }

  /** Decoding does not depend on where the stream is cut. */
  lemma {:induction false} DecodeMore(a: seq<Byte>, b: seq<Byte>)
    ensures Gives(a + b, Decode(a).frames + Decode(Decode(a).rest + b).frames, Decode(Decode(a).rest + b).rest)
    decreases |a|
  {
    hide FromBytes, Decode;
    DecodeFront(a);
    if FrameFront(a) {
      var n := FromBytes(a[..FIELD]);
      var first, rest := a[FIELD..FIELD + n], a[FIELD + n..];
      assert (a + b)[..FIELD] == a[..FIELD];
      DecodeFront(a + b);
      DecodeMore(rest, b);
      assert (a + b)[FIELD..FIELD + n] == first && (a + b)[FIELD + n..] == rest + b;
      var more := Decode(Decode(rest).rest + b).frames;
      assert [first] + (Decode(rest).frames + more) == [first] + Decode(rest).frames + more;
    } else {
      assert [] + Decode(a + b).frames == Decode(a + b).frames;
    }
  }

  /** What decoding leaves over does not start with a complete frame. */
  lemma {:induction false} DecodeRest(s: seq<Byte>)
    ensures !FrameFront(Decode(s).rest)
    decreases |s|
  {
    hide FromBytes, Decode;
    DecodeFront(s);
    if FrameFront(s) {
      DecodeRest(s[FIELD + FromBytes(s[..FIELD])..]);
    }
  }

  // ------------------------------------------------------------ round trips

  ghost predicate Short(ms: seq<Message>) {
    forall i :: 0 <= i < |ms| ==> |ms[i]| < LIMIT
  }

  lemma {:induction false} DecodeStream(ms: seq<Message>, s: seq<Byte>)
    requires Short(ms)
    ensures Gives(Stream(ms) + s, ms + Decode(s).frames, Decode(s).rest)
  {
    hide Decode, Frame;
    if ms == [] {
      assert Stream(ms) + s == s;
    } else {
      DecodeStream(ms[1..], s);
      DecodeFrame(ms[0], Stream(ms[1..]) + s);
      assert Frame(ms[0]) + Stream(ms[1..]) + s == Frame(ms[0]) + (Stream(ms[1..]) + s);
      assert ms == [ms[0]] + ms[1..];
    }
  }

  /** The length of an overlong message wraps around, and the first frame read is a proper part of it. */
  lemma DecodeLong(m: Message, s: seq<Byte>)
    requires |m| >= LIMIT
    ensures Decode(Frame(m) + s).frames != [] && |Decode(Frame(m) + s).frames[0]| < |m|
  {
    hide ToBytes, FromBytes;
    var t := Frame(m) + s;
    var n := |m| % LIMIT;
    SpanOfField();
    FromTo(n, FIELD);
    assert t[..FIELD] == ToBytes(n, FIELD);
  }

  /** Message i begins where the messages before it end, with its length in the field. */
  lemma FrameAt(ms: seq<Message>, i: nat)
    requires i < |ms| && |ms[i]| < 0x1_0000_0000
    ensures var at, n := |Stream(ms[..i])|, |ms[i]|;
            && at + 4 + n <= |Stream(ms)|
            && Stream(ms)[at..at + 4] == [n / 0x100_0000, n / 0x1_0000 % 256, n / 256 % 256, n % 256]
            && Stream(ms)[at + 4..at + 4 + n] == ms[i]
  {
    hide ToBytes;
    StreamSplit(ms, i);
    FieldBytes(|ms[i]|);
    assert ms[i..][0] == ms[i];
    var head, tail := Stream(ms[..i]), Stream(ms[i..][1..]);
    assert Stream(ms) == head + (ToBytes(|ms[i]|, FIELD) + ms[i] + tail);
  }

  /** Messages come back whole and in order, with nothing left over, exactly when all of them are short enough for the field. */
  lemma {:induction false} RoundTrip(ms: seq<Message>)
    ensures Gives(Stream(ms), ms, []) <==> Short(ms)
  {
    if Short(ms) {
      DecodeStream(ms, []);
      assert Stream(ms) + [] == Stream(ms);
    } else {
      var i := FirstLong(ms);
      StreamSplit(ms, i);
      var rest := Frame(ms[i]) + Stream(ms[i + 1..]);
      assert Stream(ms[i..]) == rest by {
        assert ms[i..][1..] == ms[i + 1..];
      }
      DecodeStream(ms[..i], rest);
      DecodeLong(ms[i], Stream(ms[i + 1..]));
      assert ms == ms[..i] + ms[i..];
      assert ms[..i] + Decode(rest).frames != ms by {
        assert (ms[..i] + Decode(rest).frames)[i] == Decode(rest).frames[0];
      }
    }
  }

  lemma {:induction false} FirstLong(ms: seq<Message>) returns (i: nat)
    requires !Short(ms)
    ensures i < |ms| && |ms[i]| >= LIMIT && Short(ms[..i])
  {
    if |ms[0]| >= LIMIT {
      i := 0;
    } else {
      assert !Short(ms[1..]) by {
        var k :| 0 <= k < |ms| && |ms[k]| >= LIMIT;
        assert ms[1..][k - 1] == ms[k];
      }
      i := FirstLong(ms[1..]);
      assert forall k :: 0 < k <= i ==> ms[k] == ms[1..][k - 1] && ms[1..][..i][k - 1] == ms[k];
      i := i + 1;
    }
  }

  lemma {:induction false} StreamSplit(ms: seq<Message>, i: nat)
    requires i <= |ms|
    ensures Stream(ms) == Stream(ms[..i]) + Stream(ms[i..])
  {
    if i > 0 {
      StreamSplit(ms[1..], i - 1);
      assert ms[..i][1..] == ms[1..][..i - 1];
      assert ms[1..][i - 1..] == ms[i..];
    } else {
      assert ms[..0] == [] && ms[0..] == ms;
    }
  }

  /** A frame that has not arrived in full is not handed over. */
  lemma DecodePart(m: Message, k: nat)
    requires |m| < LIMIT && k < |Frame(m)|
    ensures Gives(Frame(m)[..k], [], Frame(m)[..k])
  {
    hide ToBytes, FromBytes;
    var t := Frame(m)[..k];
    if k >= FIELD {
      SpanOfField();
      FromTo(|m|, FIELD);
      assert t[..FIELD] == ToBytes(|m|, FIELD);
    }
  }

  /** However much of the stream arrives, what is handed over are the messages whose frames arrived in full: as many as fit,
      and in order. */
  lemma {:induction false} Truncated(ms: seq<Message>, k: nat) returns (j: nat)
    requires Short(ms) && k <= |Stream(ms)|
    ensures j <= |ms| && |Stream(ms[..j])| <= k && (j < |ms| ==> k < |Stream(ms[..j + 1])|)
    ensures Gives(Stream(ms)[..k], ms[..j], Stream(ms)[|Stream(ms[..j])|..k])
  {
    hide Decode, Frame;
    if ms == [] {
      j := 0;
      NothingDecoded();
      assert Stream(ms)[..k] == [];
    } else {
      var m, rest := ms[0], Stream(ms[1..]);
      if k < |Frame(m)| {
        j := 0;
        DecodePart(m, k);
        assert Stream(ms)[..k] == Frame(m)[..k];
        assert ms[..1][1..] == [] && Stream(ms[..1]) == Frame(m) + [];
      } else {
        var i := Truncated(ms[1..], k - |Frame(m)|);
        j := i + 1;
        assert Stream(ms)[..k] == Frame(m) + rest[..k - |Frame(m)|];
        DecodeFrame(m, rest[..k - |Frame(m)|]);
        assert ms[..j] == [m] + ms[1..][..i] && ms[..j][1..] == ms[1..][..i];
        if j < |ms| {
          assert ms[..j + 1][1..] == ms[1..][..i + 1];
        }
        assert Stream(ms)[|Stream(ms[..j])|..k] == rest[|Stream(ms[1..][..i])|..k - |Frame(m)|];
      }
    }
  }

  // ------------------------------------------------------------ the sender

  /** UnixSocketSender, with the bytes the system has accepted so far. */
  class UnixSocketSender {
    var isConnected: bool
    var wire: seq<Byte>

    constructor ()
      ensures !isConnected && wire == []
    {
      isConnected, wire := false, [];
    }

    /** UnixSocketSender::Send.  The system accepts any positive number of the bytes it is offered, or fails. */
    method Send(data: Message) returns (ok: bool)
      modifies this
      ensures ok ==> old(isConnected) && data != [] && isConnected && wire == old(wire) + Frame(data)
      ensures !ok && old(isConnected) && data != [] ==>
                !isConnected && exists k :: 0 <= k < |Frame(data)| && wire == old(wire) + Frame(data)[..k]
      ensures !old(isConnected) || data == [] ==> !ok && wire == old(wire) && isConnected == old(isConnected)
    {
      if !isConnected || data == [] {
        return false;
      }
      var buffer := Frame(data);
      var at: nat, remaining: nat := 0, |buffer|;
      assert buffer[..0] == [];
      while remaining > 0
        invariant at <= |buffer| && at + remaining == |buffer| && isConnected && wire == old(wire) + buffer[..at]
      {
        var sent :| -1 <= sent <= remaining && sent != 0;
        if sent == -1 {
          isConnected := false;
          return false;
        }
        wire := wire + buffer[at..at + sent];
        assert buffer[..at + sent] == buffer[..at] + buffer[at..at + sent];
        at, remaining := at + sent, remaining - sent;
      }
      assert buffer[..at] == buffer;
      return true;
    }
  }

  /** PerfettoSocketSender._send: one connection per payload.  A length that does not fit the field raises an error. */
  method SendPayload(payload: Message) returns (wire: Option<seq<Byte>>)
    ensures wire.Some? <==> |payload| < LIMIT
    ensures wire.Some? ==> Gives(wire.value, [payload], [])
  {
    hide ToBytes, FromBytes, Decode;
    if |payload| >= LIMIT {
      return None;
    }
    wire := Some(ToBytes(|payload|, FIELD) + payload);
    DecodeFrame(payload, []);
    NothingDecoded();
    assert [payload] + [] == [payload];
    assert wire.value == Frame(payload) + [];
  }

  // ------------------------------------------------------------ the receiver

  datatype Fate = Delivered | Dropped

  /** The bytes received: recv returns an empty chunk when the peer has closed the connection. */
  function Received(chunks: seq<seq<Byte>>): seq<Byte> {
    if chunks == [] || chunks[0] == [] then [] else chunks[0] + Received(chunks[1..])
  }

  ghost predicate IsPiece(s: seq<Byte>, from: nat, to: nat, chunk: seq<Byte>) {
    from < to <= |s| && chunk == s[from..to]
  }

  /** The first n chunks cut s at the given places, none of them empty; then the chunks end, or one is empty. */
  ghost predicate CutAt(s: seq<Byte>, chunks: seq<seq<Byte>>, n: nat, cuts: seq<nat>) {
    && n <= |chunks| && |cuts| == n + 1 && cuts[0] == 0 && cuts[n] == |s|
    && (forall k :: 0 <= k < n ==> IsPiece(s, cuts[k], cuts[k + 1], chunks[k]))
    && (n < |chunks| ==> chunks[n] == [])
  }

  /** However the bytes are cut, and whatever follows an empty chunk, the bytes received are those that were cut. */
  lemma CutReceived(s: seq<Byte>, chunks: seq<seq<Byte>>, n: nat, cuts: seq<nat>)
    requires CutAt(s, chunks, n, cuts)
    ensures Received(chunks) == s
  {
    CutFrom(s, chunks, n, cuts, 0);
    assert chunks[0..] == chunks && s[0..] == s;
  }

  lemma {:induction false} CutFrom(s: seq<Byte>, chunks: seq<seq<Byte>>, n: nat, cuts: seq<nat>, k: nat)
    requires CutAt(s, chunks, n, cuts) && k <= n
    ensures cuts[k] <= |s| && Received(chunks[k..]) == s[cuts[k]..]
    decreases n - k
  {
    if k < n {
      CutFrom(s, chunks, n, cuts, k + 1);
      assert IsPiece(s, cuts[k], cuts[k + 1], chunks[k]);
      assert chunks[k..][0] == chunks[k] && chunks[k..][1..] == chunks[k + 1..];
      assert s[cuts[k]..] == s[cuts[k]..cuts[k + 1]] + s[cuts[k + 1]..];
    } else if n < |chunks| {
      assert chunks[k..][0] == [];
    }
  }

  /** Of the stream of ms the bytes s have arrived: `got` are the messages that are whole in them, and `rest` is what is left. */
  ghost predicate WholePart(ms: seq<Message>, s: seq<Byte>, got: seq<Message>, rest: seq<Byte>) {
    exists j :: 0 <= j <= |ms| && got == ms[..j] && s == Stream(ms[..j]) + rest && (j < |ms| ==> |s| < |Stream(ms[..j + 1])|)
  }

  lemma PartGiven(ms: seq<Message>, s: seq<Byte>, got: seq<Message>, rest: seq<Byte>)
    requires Short(ms) && s <= Stream(ms) && Gives(s, got, rest)
    ensures WholePart(ms, s, got, rest)
    ensures s == Stream(ms) ==> got == ms && rest == []
  {
    hide Decode;
    var j := Truncated(ms, |s|);
    assert s == Stream(ms)[..|s|];
    StreamSplit(ms, j);
    assert s == Stream(ms[..j]) + rest;
    RoundTrip(ms);
  }

  /** AbstractSocketServer: a queue of bounded size between the connections and the consumer.  A size of 0 is no bound.
      `arrived` are all messages ever handed over, `fates` says what became of those that have left the queue. */
  class AbstractSocketServer {
    const maxSize: nat
    var queue: seq<Message>
    ghost var arrived: seq<Message>
    ghost var fates: seq<Fate>

    /** The queue holds the messages that came last, in order; the ones before them have been delivered or dropped. */
    ghost predicate Valid()
      reads this
    {
      && |fates| <= |arrived| && queue == arrived[|fates|..]
      && (maxSize > 0 ==> |queue| <= maxSize)
    }

    constructor (maxSize: nat)
      ensures Valid() && arrived == [] && fates == [] && this.maxSize == maxSize
    {
      this.maxSize, queue, arrived, fates := maxSize, [], [], [];
    }

    /** _process_data_frame */
    static method ProcessDataFrame(buffer: seq<Byte>) returns (data: Option<Message>, rest: seq<Byte>)
      requires |buffer| >= FIELD
      ensures data.None? ==> Gives(buffer, [], buffer) && rest == buffer
      ensures data.Some? ==> |rest| < |buffer| && Gives(buffer, [data.value] + Decode(rest).frames, Decode(rest).rest)
    {
      var length := FromBytes(buffer[..FIELD]);
      if |buffer| >= FIELD + length {
        return Some(buffer[FIELD..FIELD + length]), buffer[FIELD + length..];
      }
      return None, buffer;
    }

    /** _handle_data and _handle_queue_full: only a full queue loses a message, and it loses the oldest. */
    method HandleData(data: Message)
      requires Valid()
      modifies this
      ensures Valid() && arrived == old(arrived) + [data]
      ensures fates == old(fates) + if 0 < maxSize <= |old(queue)| then [Dropped] else []
    {
      if 0 < maxSize <= |queue| {
        queue := queue[1..];
        fates := fates + [Dropped];
      }
      queue := queue + [data];
      arrived := arrived + [data];
    }

    /** get_data */
    method GetData() returns (data: Option<Message>)
      requires Valid()
      modifies this
      ensures Valid() && arrived == old(arrived)
      ensures data.None? ==> old(queue) == [] && fates == old(fates)
      ensures data.Some? ==> |old(fates)| < |arrived| && data.value == arrived[|old(fates)|] && fates == old(fates) + [Delivered]
    {
      if queue == [] {
        return None;
      }
      data := Some(queue[0]);
      queue := queue[1..];
      fates := fates + [Delivered];
    }

    /** _handle_recv: whatever the chunks, the messages handed over are those the bytes received decode to. */
    method HandleRecv(chunks: seq<seq<Byte>>) returns (buffer: seq<Byte>)
      requires Valid()
      modifies this
      ensures Valid() && old(arrived) <= arrived
      ensures Gives(Received(chunks), arrived[|old(arrived)|..], buffer) && !FrameFront(buffer)
      ensures forall ms, s, n, cuts :: Short(ms) && CutAt(s, chunks, n, cuts) && s <= Stream(ms) ==>
                && WholePart(ms, s, arrived[|old(arrived)|..], buffer)
                && (s == Stream(ms) ==> arrived == old(arrived) + ms && buffer == [])
    {
      hide Decode, FrameFront;
      buffer := [];
      NothingDecoded();
      var i := 0;
      ghost var seen := [];
      assert chunks[0..] == chunks;
      while i < |chunks| && chunks[i] != []
        invariant 0 <= i <= |chunks| && Valid() && old(arrived) <= arrived
        invariant Received(chunks) == seen + Received(chunks[i..])
        invariant Gives(seen, arrived[|old(arrived)|..], buffer)
      {
        ghost var before := arrived;
        DecodeMore(seen, chunks[i]);
        seen := seen + chunks[i];
        assert chunks[i..][1..] == chunks[i + 1..];
        buffer := ProcessFrames(buffer + chunks[i]);
        assert arrived[|old(arrived)|..] == before[|old(arrived)|..] + arrived[|before|..];
        i := i + 1;
      }
      assert Received(chunks[i..]) == [];
      assert seen + [] == seen;
      DecodeRest(seen);
      forall ms, s, n, cuts | Short(ms) && CutAt(s, chunks, n, cuts) && s <= Stream(ms)
        ensures WholePart(ms, s, arrived[|old(arrived)|..], buffer)
        ensures s == Stream(ms) ==> arrived[|old(arrived)|..] == ms && buffer == []
      {
        CutReceived(s, chunks, n, cuts);
        PartGiven(ms, s, arrived[|old(arrived)|..], buffer);
      }
      assert old(arrived) + arrived[|old(arrived)|..] == arrived;
    }

    /** The inner loop of _handle_recv. */
    method ProcessFrames(buffer0: seq<Byte>) returns (buffer: seq<Byte>)
      requires Valid()
      modifies this
      ensures Valid() && old(arrived) <= arrived
      ensures Gives(buffer0, arrived[|old(arrived)|..], buffer)
    {
      buffer := buffer0;
      while |buffer| >= FIELD
        invariant Valid() && old(arrived) <= arrived
        invariant Gives(buffer0, arrived[|old(arrived)|..] + Decode(buffer).frames, Decode(buffer).rest)
        decreases |buffer|
      {
        var data, rest := ProcessDataFrame(buffer);
        if data.None? {
          return;
        }
        HandleData(data.value);
        buffer := rest;
      }
    }
  }

  /** From sender to queue: whatever the recv calls return of the bytes sent, the frames handed over are the messages whose
      bytes arrived in full, and all of them with nothing left over when the whole stream arrives. */
  lemma EndToEnd(ms: seq<Message>, s: seq<Byte>, chunks: seq<seq<Byte>>, n: nat, cuts: seq<nat>)
    requires Short(ms) && s <= Stream(ms) && CutAt(s, chunks, n, cuts)
    ensures WholePart(ms, s, Decode(Received(chunks)).frames, Decode(Received(chunks)).rest)
    ensures s == Stream(ms) ==> Gives(Received(chunks), ms, [])
  {
    hide Decode;
    CutReceived(s, chunks, n, cuts);
    PartGiven(ms, s, Decode(s).frames, Decode(s).rest);
  }
}
