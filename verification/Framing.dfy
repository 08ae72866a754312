/** Messages on a byte stream, ended by a delimiter (communication_buffer.py:26-43). */
module Framing {
  import opened Sequences
  import opened Messages
  import opened Permutations

  const END_OF_MESSAGE: seq<byte> := [13, 10, 13, 10]

  /** A delimiter starts at k. */
  predicate At(s: seq<byte>, k: nat) {
    k + 4 <= |s| && s[k] == 13 && s[k + 1] == 10 && s[k + 2] == 13 && s[k + 3] == 10
  }

  /** Where the first delimiter starts, or -1. */
  function Find(s: seq<byte>): (k: int)
    ensures -1 <= k && (k >= 0 ==> At(s, k))
  {
    if |s| < 4 then -1
    else if At(s, 0) then 0
    else
      var k := Find(s[1..]);
      if k < 0 then -1 else k + 1
  }

  /** It is the first: none starts before it, and with -1 there is none. */
  lemma {:induction false} FindFirst(s: seq<byte>, j: nat)
    requires At(s, j)
    ensures 0 <= Find(s) <= j
  {
    if !At(s, 0) {
      assert At(s[1..], j - 1);
      FindFirst(s[1..], j - 1);
    }
  }

  /** Bytes that arrive later do not move a delimiter that has arrived. */
  lemma FindInPrefix(s: seq<byte>, more: seq<byte>)
    requires Find(s) >= 0
    ensures Find(s + more) == Find(s)
  {
    hide Find;
    FindFirst(s + more, Find(s));
    FindFirst(s, Find(s + more));
  }

  class CommunicationBuffer {
    var buffer: seq<byte>
    /** What the reads from the socket will return, before the peer closes it. */
    var incoming: seq<seq<byte>>

    constructor (incoming: seq<seq<byte>>)
      ensures buffer == [] && this.incoming == incoming
    {
      buffer, this.incoming := [], incoming;
    }

    /** Everything that has not been handed out yet. */
    ghost function Unread(): seq<byte>
      reads this
    {
      buffer + Flatten(incoming)
    }

    /** The bytes before the first delimiter of the stream, however it is cut into reads;
        without one the peer has disconnected. */
    method GetMessage() returns (message: Result<seq<byte>>)
      requires forall i :: 0 <= i < |incoming| ==> incoming[i] != []
      modifies this
      ensures exists n :: 0 <= n <= |old(incoming)| && incoming == old(incoming)[n..]
      ensures var stream, k := old(Unread()), Find(old(Unread()));
        if k >= 0 then message == Success(stream[..k]) && Unread() == stream[k + 4..]
        else message == Failure && Unread() == stream && incoming == []
    {
      ghost var n := 0;
      while Find(buffer) < 0
        invariant 0 <= n <= |old(incoming)| && incoming == old(incoming)[n..]
        invariant Unread() == old(Unread())
        decreases |incoming|
      {
        if incoming == [] {
          assert Unread() == buffer;
          return Failure;
        }
        assert buffer + incoming[0] + Flatten(incoming[1..]) == Unread();
        buffer := buffer + incoming[0];
        incoming := incoming[1..];
        n := n + 1;
      }
      var k := Find(buffer);
      FindInPrefix(buffer, Flatten(incoming));
      assert Unread()[..k] == buffer[..k];
      assert Unread()[k + 4..] == buffer[k + 4..] + Flatten(incoming);
      message := Success(buffer[..k]);
      buffer := buffer[k + 4..];
    }
  }

  /** What the sender's sendall calls put on the stream. */
  function Stream(messages: seq<seq<byte>>): seq<byte> {
    if messages == [] then [] else messages[0] + END_OF_MESSAGE + Stream(messages[1..])
  }

  /** What calling GetMessage until it fails returns, and what it leaves. */
  function Frames(stream: seq<byte>): (seq<seq<byte>>, seq<byte>)
    decreases |stream|
  {
    var k := Find(stream);
    if k < 0 then ([], stream)
    else
      var (frames, rest) := Frames(stream[k + 4..]);
      ([stream[..k]] + frames, rest)
  }

  /** What parsing makes of a frame: one with a result (or the end of the results), any other
      message, which goes to the sending side, or an exception. */
  datatype Kind = ForResults | ForSender | Malformed

  /** The frames before the first malformed one. */
  function Readable(frames: seq<seq<byte>>, kind: seq<byte> -> Kind): seq<seq<byte>> {
    if frames == [] || kind(frames[0]).Malformed? then [] else [frames[0]] + Readable(frames[1..], kind)
  }

  predicate AllRead(frames: seq<seq<byte>>, kind: seq<byte> -> Kind) {
    forall i :: 0 <= i < |frames| ==> !kind(frames[i]).Malformed?
  }

  lemma {:induction false} ReadableIs(done: seq<seq<byte>>, tail: seq<seq<byte>>, kind: seq<byte> -> Kind)
    requires AllRead(done, kind) && (tail == [] || kind(tail[0]).Malformed?)
    ensures Readable(done + tail, kind) == done
  {
    if done == [] {
      assert done + tail == tail;
    } else {
      assert (done + tail)[0] == done[0] && (done + tail)[1..] == done[1..] + tail;
      ReadableIs(done[1..], tail, kind);
    }
  }

  function Are(kind: seq<byte> -> Kind, k: Kind): seq<byte> -> bool {
    (frame: seq<byte>) => kind(frame) == k
  }

  /** What has been handed out when the frames `done` have been read and `left` have not. */
  ghost predicate Delivered(all: seq<seq<byte>>, done: seq<seq<byte>>, left: seq<seq<byte>>,
                            results: seq<seq<byte>>, others: seq<seq<byte>>, kind: seq<byte> -> Kind)
  {
    && all == done + left && AllRead(done, kind)
    && results == Filter(done, Are(kind, ForResults)) && others == Filter(done, Are(kind, ForSender))
  }

  lemma NextDelivered(all: seq<seq<byte>>, done: seq<seq<byte>>, frame: seq<byte>, left: seq<seq<byte>>,
                      results: seq<seq<byte>>, others: seq<seq<byte>>, kind: seq<byte> -> Kind)
    requires Delivered(all, done, [frame] + left, results, others, kind) && !kind(frame).Malformed?
    ensures Delivered(all, done + [frame], left, results + (if kind(frame).ForResults? then [frame] else []),
                      others + (if kind(frame).ForSender? then [frame] else []), kind)
  {
    assert done + ([frame] + left) == (done + [frame]) + left;
    FilterLast(done, frame, Are(kind, ForResults));
    FilterLast(done, frame, Are(kind, ForSender));
    hide Filter;
  }

  lemma LastDelivered(all: seq<seq<byte>>, done: seq<seq<byte>>, left: seq<seq<byte>>,
                      results: seq<seq<byte>>, others: seq<seq<byte>>, kind: seq<byte> -> Kind)
    requires Delivered(all, done, left, results, others, kind) && (left == [] || kind(left[0]).Malformed?)
    ensures results == Filter(Readable(all, kind), Are(kind, ForResults))
    ensures others == Filter(Readable(all, kind), Are(kind, ForSender))
    ensures AllRead(all, kind) ==> left == []
  {
    ReadableIs(done, left, kind);
    assert left != [] ==> all[|done|] == left[0];
  }

  lemma FirstFrame(stream: seq<byte>)
    ensures var k := Find(stream);
      if k < 0 then Frames(stream) == ([], stream)
      else
        var rest := Frames(stream[k + 4..]);
        Frames(stream) == ([stream[..k]] + rest.0, rest.1)
  {
  }

  /** A receiver reads until the peer disconnects or a frame does not parse: it gets the
      frames of the stream before that, the results and the others each in order, and
      acknowledges every result; and the unfinished tail stays in the buffer, however the
      stream is cut into reads. */
  method Receive(buff: CommunicationBuffer, kind: seq<byte> -> Kind)
    returns (results: seq<seq<byte>>, others: seq<seq<byte>>, resultAcks: nat)
    requires forall i :: 0 <= i < |buff.incoming| ==> buff.incoming[i] != []
    modifies buff
    ensures var frames := Frames(old(buff.Unread())).0;
      && results == Filter(Readable(frames, kind), Are(kind, ForResults))
      && others == Filter(Readable(frames, kind), Are(kind, ForSender))
      && resultAcks == |results|
      && (AllRead(frames, kind) ==> buff.buffer == Frames(old(buff.Unread())).1 && buff.incoming == [])
  {
    results, others, resultAcks := [], [], 0;
    ghost var all := Frames(buff.Unread()).0;
    ghost var done: seq<seq<byte>> := [];
    assert Delivered(all, done, all, results, others, kind);
    hide Find, Frames, Readable, Filter, Delivered, AllRead;
    while true
      invariant forall i :: 0 <= i < |buff.incoming| ==> buff.incoming[i] != []
      invariant Delivered(all, done, Frames(buff.Unread()).0, results, others, kind)
      invariant Frames(buff.Unread()).1 == Frames(old(buff.Unread())).1
      invariant resultAcks == |results|
      decreases |buff.Unread()|
    {
      ghost var stream := buff.Unread();
      FirstFrame(stream);
      var message := buff.GetMessage();
      if message.Failure? {
        assert buff.Unread() == buff.buffer;
        assert Delivered(all, done, [], results, others, kind);
        LastDelivered(all, done, [], results, others, kind);
        return;
      }
      ghost var left := Frames(buff.Unread()).0;
      assert Frames(stream).0 == [message.value] + left;
      if kind(message.value).Malformed? {
        LastDelivered(all, done, [message.value] + left, results, others, kind);
        return;
      }
      NextDelivered(all, done, message.value, left, results, others, kind);
      done := done + [message.value];
      if kind(message.value).ForResults? {
        NoTail(others);
        results, resultAcks := results + [message.value], resultAcks + 1;
      } else {
        NoTail(results);
        others := others + [message.value];
      }
    }
  }

  /** With its delimiter, the message holds no delimiter before the end. */
  predicate Framed(message: seq<byte>) {
    Find(message + END_OF_MESSAGE) == |message|
  }

  /** A message is framed unless it contains the delimiter or ends in half of it. */
  lemma {:induction false} FramedExactly(message: seq<byte>)
    ensures Framed(message)
       <==> Find(message) < 0 && !(|message| >= 2 && message[|message| - 2] == 13 && message[|message| - 1] == 10)
  {
    hide Find;
    var s, n := message + END_OF_MESSAGE, |message|;
    FindFirst(s, n);
    if Find(message) >= 0 {
      FindInPrefix(message, END_OF_MESSAGE);
    } else if n >= 2 && message[n - 2] == 13 && message[n - 1] == 10 {
      FindFirst(s, n - 2);
    } else if Find(s) < n {
      DelimiterBefore(message, Find(s));
    }
  }

  /** A delimiter that starts in the message ends in it, or its second half is the final delimiter's first. */
  lemma DelimiterBefore(message: seq<byte>, k: nat)
    requires k < |message| && At(message + END_OF_MESSAGE, k)
    ensures Find(message) >= 0
         || (|message| >= 2 && message[|message| - 2] == 13 && message[|message| - 1] == 10)
  {
    hide Find;
    var s, n := message + END_OF_MESSAGE, |message|;
    assert s[n] == 13;
    if k + 4 <= n {
      assert At(message, k);
      FindFirst(message, k);
    } else {
      assert k + 2 == n;
    }
  }

  /** The first message of the stream, and what is left, with a tail that is still unfinished. */
  lemma NextFrame(message: seq<byte>, rest: seq<byte>)
    requires Framed(message)
    ensures var stream := message + END_OF_MESSAGE + rest;
      Find(stream) == |message| && stream[..|message|] == message && stream[|message| + 4..] == rest
  {
    FindInPrefix(message + END_OF_MESSAGE, rest);
  }

  lemma {:induction false} FramesNext(message: seq<byte>, rest: seq<byte>)
    requires Framed(message)
    ensures Frames(message + END_OF_MESSAGE + rest) == ([message] + Frames(rest).0, Frames(rest).1)
  {
    NextFrame(message, rest);
    hide Find;
  }

  /** Every stream of framed messages, with an unfinished tail, is read back exactly. */
  lemma {:induction false} FramesOfStream(messages: seq<seq<byte>>, tail: seq<byte>)
    requires forall i :: 0 <= i < |messages| ==> Framed(messages[i])
    requires Find(tail) < 0
    ensures Frames(Stream(messages) + tail) == (messages, tail)
  {
    if messages == [] {
      assert [] + tail == tail;
    } else {
      var rest := Stream(messages[1..]) + tail;
      assert Stream(messages) + tail == messages[0] + END_OF_MESSAGE + rest;
      assert messages == [messages[0]] + messages[1..];
      hide Frames, Framed, Stream;
      FramesNext(messages[0], rest);
      FramesOfStream(messages[1..], tail);
    }
  }

  /** The stream comes back as it was sent if and only if every message is framed. */
  lemma {:induction false} ReadsBackExactly(messages: seq<seq<byte>>)
    ensures Frames(Stream(messages)).0 == messages <==> forall i :: 0 <= i < |messages| ==> Framed(messages[i])
  {
    if forall i :: 0 <= i < |messages| ==> Framed(messages[i]) {
      FramesOfStream(messages, []);
      assert Stream(messages) + [] == Stream(messages);
    } else {
      var i :| 0 <= i < |messages| && !Framed(messages[i]);
      BadFrame(messages, i);
    }
  }

  lemma {:induction false} BadFrame(messages: seq<seq<byte>>, i: nat)
    requires i < |messages| && !Framed(messages[i])
    ensures Frames(Stream(messages)).0 != messages
  {
    var rest := Stream(messages[1..]);
    assert Stream(messages) == messages[0] + END_OF_MESSAGE + rest;
    if Framed(messages[0]) {
      BadFrame(messages[1..], i - 1);
      hide Frames, Framed, Stream;
      FramesNext(messages[0], rest);
      assert ([messages[0]] + Frames(rest).0)[1..] == Frames(rest).0;
    } else {
      hide Framed, Stream, Find;
      CutShort(messages[0], rest);
      assert Frames(Stream(messages)).0[0] != messages[0];
    }
  }

  /** A message that is not framed comes back shorter. */
  lemma CutShort(message: seq<byte>, rest: seq<byte>)
    requires !Framed(message)
    ensures 0 <= Find(message + END_OF_MESSAGE + rest) < |message|
  {
    hide Find;
    var s := message + END_OF_MESSAGE;
    FindFirst(s, |message|);
    FindInPrefix(s, rest);
  }
}
