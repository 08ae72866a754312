/** The bytes of the messages between processors (message.py, message_utils.py, log_searcher.py). */
module Codec {
  import opened Sequences
  import opened Messages

  // ---------- integers ----------

  function Power(size: nat): (p: nat)
    ensures p > 0
  {
    if size == 0 then 1 else 256 * Power(size - 1)
  }

  /** value.to_bytes(size, "big") raises an OverflowError outside this range. */
  predicate Fits(value: int, size: nat) {
    0 <= value < Power(size)
  }

  function IntBytes(value: int, size: nat): (bytes: seq<byte>)
    requires Fits(value, size)
    ensures |bytes| == size
  {
    if size == 0 then [] else IntBytes(value / 256, size - 1) + [(value % 256) as byte]
  }

  function BytesInt(bytes: seq<byte>): nat {
    if bytes == [] then 0 else 256 * BytesInt(bytes[..|bytes| - 1]) + bytes[|bytes| - 1] as nat
  }

  lemma {:induction false} IntRoundTrip(value: int, size: nat)
    requires Fits(value, size)
    ensures BytesInt(IntBytes(value, size)) == value
  {
    if size > 0 {
      IntRoundTrip(value / 256, size - 1);
      var bytes := IntBytes(value, size);
      assert bytes[..|bytes| - 1] == IntBytes(value / 256, size - 1);
    }
  }

  /** Every byte string is the encoding of exactly one number in range. */
  lemma {:induction false} BytesRoundTrip(bytes: seq<byte>)
    ensures Fits(BytesInt(bytes), |bytes|) && IntBytes(BytesInt(bytes), |bytes|) == bytes
  {
    if bytes != [] {
      BytesRoundTrip(bytes[..|bytes| - 1]);
      FrontAndLast(bytes);
    }
  }

  // ---------- lists and records ----------

  predicate AllFit(values: seq<int>, size: nat) {
    forall i :: 0 <= i < |values| ==> Fits(values[i], size)
  }

  function IntsBytes(values: seq<int>): seq<byte>
    requires AllFit(values, 8)
  {
    if values == [] then [] else IntBytes(values[0], 8) + IntsBytes(values[1..])
  }

  /** Nine bytes: whether the output was sent, and the id. */
  function RecordBytes(r: ProcessedMessage): (bytes: seq<byte>)
    requires Fits(r.id, 8)
    ensures |bytes| == 9
  {
    [if r.sent then 1 else 0] + IntBytes(r.id, 8)
  }

  predicate AllRecordsFit(records: seq<ProcessedMessage>) {
    forall i :: 0 <= i < |records| ==> Fits(records[i].id, 8)
  }

  function RecordsBytes(records: seq<ProcessedMessage>): seq<byte>
    requires AllRecordsFit(records)
  {
    if records == [] then [] else RecordBytes(records[0]) + RecordsBytes(records[1..])
  }

  // ---------- messages ----------

  function TypeValue(m: Message): (t: nat)
    ensures t < 7
  {
    match m
    case Protocol(_, _, _) => 0
    case ProtocolResult(_, _, _, _) => 1
    case Eof(_, _, _) => 2
    case EofDiscovery(_, _, _, _, _, _, _) => 3
    case EofAggregation(_, _, _, _, _, _, _, _) => 4
    case EofFinish(_, _) => 5
    case EofResult(_, _, _) => 6
  }

  /** A list whose length and members can be written. */
  predicate ListFits(values: seq<int>) {
    Fits(|values|, 4) && AllFit(values, 8)
  }

  /** The six fields that discovery and aggregation tokens share. */
  predicate RoundFits(m: Message)
    requires m.EofDiscovery? || m.EofAggregation?
  {
    && Fits(m.originalMessagesSent, 8) && ListFits(m.originalPossibleDuplicates)
    && Fits(m.messagesReceived, 8) && Fits(m.messagesSent, 8)
    && ListFits(m.possibleDuplicates) && ListFits(m.replicaIdSeen)
  }

  predicate InRange(m: Message) {
    && Fits(m.clientId, 8)
    && match m
       case Protocol(_, id, _) => Fits(id, 8)
       case ProtocolResult(_, tag, id, _) => Fits(tag, 1) && Fits(id, 8)
       case Eof(_, sent, dups) => Fits(sent, 8) && ListFits(dups)
       case EofDiscovery(_, _, _, _, _, _, _) => RoundFits(m)
       case EofAggregation(_, _, _, _, _, _, _, records) =>
         RoundFits(m) && Fits(|records|, 4) && AllRecordsFit(records)
       case EofFinish(_, seen) => ListFits(seen)
       case EofResult(_, tag, sent) => Fits(tag, 1) && Fits(sent, 8)
  }

  /** Bytes followed by the rest of the message. */
  function Then(bytes: seq<byte>, rest: seq<byte>): seq<byte> {
    bytes + rest
  }

  /** A list with its length in front of it, followed by the rest of the message. */
  function ListThen(values: seq<int>, rest: seq<byte>): seq<byte>
    requires ListFits(values)
  {
    Then(IntBytes(|values|, 4), Then(IntsBytes(values), rest))
  }

  function RecordsThen(records: seq<ProcessedMessage>, rest: seq<byte>): seq<byte>
    requires Fits(|records|, 4) && AllRecordsFit(records)
  {
    Then(IntBytes(|records|, 4), Then(RecordsBytes(records), rest))
  }

  function RoundThen(m: Message, rest: seq<byte>): seq<byte>
    requires (m.EofDiscovery? || m.EofAggregation?) && RoundFits(m)
  {
    Then(IntBytes(m.originalMessagesSent, 8), ListThen(m.originalPossibleDuplicates,
      Then(IntBytes(m.messagesReceived, 8), Then(IntBytes(m.messagesSent, 8),
        ListThen(m.possibleDuplicates, ListThen(m.replicaIdSeen, rest))))))
  }

  /** The wire layout: the type, the client, and the fields in their order. */
  function Encode(m: Message): seq<byte>
    requires InRange(m)
  {
    Then(IntBytes(TypeValue(m), 2), Then(IntBytes(m.clientId, 8), EncodeBody(m)))
  }

  function EncodeBody(m: Message): seq<byte>
    requires InRange(m)
  {
    match m
    case Protocol(_, id, payload) => Then(IntBytes(id, 8), Then(payload, []))
    case ProtocolResult(_, tag, id, payload) => Then(IntBytes(tag, 1), Then(IntBytes(id, 8), Then(payload, [])))
    case Eof(_, sent, dups) => Then(IntBytes(sent, 8), ListThen(dups, []))
    case EofDiscovery(_, _, _, _, _, _, _) => RoundThen(m, [])
    case EofAggregation(_, _, _, _, _, _, _, records) => RoundThen(m, RecordsThen(records, []))
    case EofFinish(_, seen) => ListThen(seen, [])
    case EofResult(_, tag, sent) => Then(IntBytes(tag, 1), Then(IntBytes(sent, 8), []))
  }

  // ---------- message_utils.py ----------

  class MessageBytesWriter {
    var buffer: seq<byte>

    constructor ()
      ensures buffer == []
    {
      buffer := [];
    }

    method Write(bytes: seq<byte>)
      modifies this
      ensures forall rest :: Then(buffer, rest) == Then(old(buffer), Then(bytes, rest))
    {
      forall rest
        ensures Then(buffer + bytes, rest) == Then(buffer, Then(bytes, rest))
      {
      }
      buffer := buffer + bytes;
    }

    method WriteInt(value: int, size: nat) returns (r: Result<()>)
      modifies this
      ensures r.Success? <==> Fits(value, size)
      ensures r.Success? ==> forall rest :: Then(buffer, rest) == Then(old(buffer), Then(IntBytes(value, size), rest))
    {
      if !Fits(value, size) {
        return Failure;
      }
      Write(IntBytes(value, size));
      return Success(());
    }

    method WriteMultipleInt(values: seq<int>) returns (r: Result<()>)
      modifies this
      ensures r.Success? <==> AllFit(values, 8)
      ensures r.Success? ==> forall rest :: Then(buffer, rest) == Then(old(buffer), Then(IntsBytes(values), rest))
    {
      assert values[0..] == values;
      for i := 0 to |values|
        invariant AllFit(values[..i], 8)
        invariant AllFit(values, 8) ==>
          forall rest ::
            Then(buffer, Then(IntsBytes(values[i..]), rest)) == Then(old(buffer), Then(IntsBytes(values), rest))
      {
        assert values[i..][1..] == values[i + 1..];
        var _ :- WriteInt(values[i], 8);
        forall rest | AllFit(values, 8)
          ensures Then(buffer, Then(IntsBytes(values[i + 1..]), rest))
               == Then(old(buffer), Then(IntsBytes(values), rest))
        {
          assert Then(IntsBytes(values[i..]), rest)
              == Then(IntBytes(values[i], 8), Then(IntsBytes(values[i + 1..]), rest));
        }
      }
      assert values[..|values|] == values && values[|values|..] == [];
      forall rest
        ensures Then(buffer, rest) == Then(old(buffer), Then(IntsBytes(values), rest))
      {
        assert Then([], rest) == rest;
      }
      return Success(());
    }

    method WriteRecords(records: seq<ProcessedMessage>) returns (r: Result<()>)
      modifies this
      ensures r.Success? <==> AllRecordsFit(records)
      ensures r.Success? ==> forall rest :: Then(buffer, rest) == Then(old(buffer), Then(RecordsBytes(records), rest))
    {
      assert records[0..] == records;
      for i := 0 to |records|
        invariant AllRecordsFit(records[..i])
        invariant AllRecordsFit(records) ==>
          forall rest ::
            Then(buffer, Then(RecordsBytes(records[i..]), rest)) == Then(old(buffer), Then(RecordsBytes(records), rest))
      {
        assert records[i..][1..] == records[i + 1..];
        if !Fits(records[i].id, 8) {
          return Failure;
        }
        Write(RecordBytes(records[i]));
        forall rest | AllRecordsFit(records)
          ensures Then(buffer, Then(RecordsBytes(records[i + 1..]), rest))
               == Then(old(buffer), Then(RecordsBytes(records), rest))
        {
          assert Then(RecordsBytes(records[i..]), rest)
              == Then(RecordBytes(records[i]), Then(RecordsBytes(records[i + 1..]), rest));
        }
      }
      assert records[..|records|] == records && records[|records|..] == [];
      forall rest
        ensures Then(buffer, rest) == Then(old(buffer), Then(RecordsBytes(records), rest))
      {
        assert Then([], rest) == rest;
      }
      return Success(());
    }

    method WriteList(values: seq<int>) returns (r: Result<()>)
      modifies this
      ensures r.Success? <==> ListFits(values)
      ensures r.Success? ==> forall rest :: Then(buffer, rest) == Then(old(buffer), ListThen(values, rest))
    {
      var _ :- WriteInt(|values|, 4);
      var _ :- WriteMultipleInt(values);
      return Success(());
    }
  }

  /** Taking an integer off the front of what is left to read. */
  function TakeInt(s: seq<byte>, size: nat): Result<(nat, seq<byte>)> {
    if size > |s| then Failure else Success((BytesInt(s[..size]), s[size..]))
  }

  function TakeInts(s: seq<byte>, count: nat): Result<(seq<nat>, seq<byte>)> {
    if count == 0 then Success(([], s))
    else
      var (value, s) :- TakeInt(s, 8);
      var (values, s) :- TakeInts(s, count - 1);
      Success(([value] + values, s))
  }

  function TakeRecord(s: seq<byte>): Result<(ProcessedMessage, seq<byte>)> {
    if 9 > |s| then Failure else Success((ProcessedMessage(BytesInt(s[1..9]), s[0] == 1), s[9..]))
  }

  function TakeRecords(s: seq<byte>, count: nat): Result<(seq<ProcessedMessage>, seq<byte>)> {
    if count == 0 then Success(([], s))
    else
      var (record, s) :- TakeRecord(s);
      var (records, s) :- TakeRecords(s, count - 1);
      Success(([record] + records, s))
  }

  function TakeList(s: seq<byte>): Result<(seq<nat>, seq<byte>)> {
    var (count, s) :- TakeInt(s, 4);
    TakeInts(s, count)
  }

  function TakeRecordList(s: seq<byte>): Result<(seq<ProcessedMessage>, seq<byte>)> {
    var (count, s) :- TakeInt(s, 4);
    TakeRecords(s, count)
  }

  /** The reading of a whole message: what it says and what is left behind it. */
  function Decode(s: seq<byte>): Result<(Message, seq<byte>)> {
    var (kind, s) :- TakeInt(s, 2);
    var (client, s) :- TakeInt(s, 8);
    DecodeBody(kind, client, s)
  }

  function DecodeBody(kind: nat, client: nat, s: seq<byte>): Result<(Message, seq<byte>)> {
    if kind == 0 then
      var (id, s) :- TakeInt(s, 8);
      Success((Protocol(client, id, s), []))
    else if kind == 1 then
      var (tag, s) :- TakeInt(s, 1);
      var (id, s) :- TakeInt(s, 8);
      Success((ProtocolResult(client, tag, id, s), []))
    else if kind == 2 then
      var (sent, s) :- TakeInt(s, 8);
      var (dups, s) :- TakeList(s);
      Success((Eof(client, sent, dups), s))
    else if kind == 3 || kind == 4 then
      DecodeRound(kind, client, s)
    else if kind == 5 then
      var (seen, s) :- TakeList(s);
      Success((EofFinish(client, seen), s))
    else if kind == 6 then
      var (tag, s) :- TakeInt(s, 1);
      var (sent, s) :- TakeInt(s, 8);
      Success((EofResult(client, tag, sent), s))
    else
      Failure
  }

  function DecodeRound(kind: nat, client: nat, s: seq<byte>): Result<(Message, seq<byte>)> {
    var (sent, s) :- TakeInt(s, 8);
    var (dups, s) :- TakeList(s);
    var (received, s) :- TakeInt(s, 8);
    var (sent', s) :- TakeInt(s, 8);
    var (dups', s) :- TakeList(s);
    var (seen, s) :- TakeList(s);
    if kind == 3 then
      Success((EofDiscovery(client, sent, dups, received, sent', dups', seen), s))
    else
      var (records, s) :- TakeRecordList(s);
      Success((EofAggregation(client, sent, dups, received, sent', dups', seen, records), s))
  }

  class MessageBytesReader {
    const buffer: seq<byte>
    var offset: nat

    constructor (bytes: seq<byte>)
      ensures Valid() && Left() == bytes
    {
      buffer, offset := bytes, 0;
    }

    ghost predicate Valid()
      reads this
    {
      offset <= |buffer|
    }

    ghost function Left(): seq<byte>
      reads this
      requires Valid()
    {
      buffer[offset..]
    }

    /** The bytes read, or the exception for a buffer that is too short. */
    method Read(size: nat) returns (r: Result<seq<byte>>)
      requires Valid()
      modifies this
      ensures Valid()
      ensures if size > |old(Left())| then r == Failure && Left() == old(Left())
              else r == Success(old(Left())[..size]) && Left() == old(Left())[size..]
    {
      if offset + size > |buffer| {
        return Failure;
      }
      var bytes := buffer[offset..offset + size];
      assert bytes == Left()[..size];
      offset := offset + size;
      return Success(bytes);
    }

    method ReadInt(size: nat) returns (r: Result<nat>)
      requires Valid()
      modifies this
      ensures Valid() && (r.Success? <==> TakeInt(old(Left()), size).Success?)
      ensures r.Success? ==> TakeInt(old(Left()), size) == Success((r.value, Left()))
    {
      var bytes :- Read(size);
      return Success(BytesInt(bytes));
    }

    method ReadMultipleInt(count: nat) returns (r: Result<seq<nat>>)
      requires Valid()
      modifies this
      ensures Valid() && (r.Success? <==> TakeInts(old(Left()), count).Success?)
      ensures r.Success? ==> TakeInts(old(Left()), count) == Success((r.value, Left()))
    {
      var ints := [];
      assert forall later: seq<nat> :: ints + later == later;
      for i := 0 to count
        invariant Valid()
        invariant TakeInts(Left(), count - i).Success? <==> TakeInts(old(Left()), count).Success?
        invariant TakeInts(Left(), count - i).Success? ==>
          var later := TakeInts(Left(), count - i).value;
          TakeInts(old(Left()), count) == Success((ints + later.0, later.1))
      {
        var value :- ReadInt(8);
        assert forall later: seq<nat> :: ints + ([value] + later) == (ints + [value]) + later;
        ints := ints + [value];
      }
      assert ints + [] == ints;
      return Success(ints);
    }

    method ReadMultipleObject(count: nat) returns (r: Result<seq<ProcessedMessage>>)
      requires Valid()
      modifies this
      ensures Valid() && (r.Success? <==> TakeRecords(old(Left()), count).Success?)
      ensures r.Success? ==> TakeRecords(old(Left()), count) == Success((r.value, Left()))
    {
      var objects := [];
      assert forall later: seq<ProcessedMessage> :: objects + later == later;
      for i := 0 to count
        invariant Valid()
        invariant TakeRecords(Left(), count - i).Success? <==> TakeRecords(old(Left()), count).Success?
        invariant TakeRecords(Left(), count - i).Success? ==>
          var later := TakeRecords(Left(), count - i).value;
          TakeRecords(old(Left()), count) == Success((objects + later.0, later.1))
      {
        ghost var left := Left();
        var bytes :- Read(9);
        assert bytes[1..] == left[1..9];
        var record := ProcessedMessage(BytesInt(bytes[1..]), bytes[0] == 1);
        assert forall later: seq<ProcessedMessage> :: objects + ([record] + later) == (objects + [record]) + later;
        objects := objects + [record];
      }
      assert objects + [] == objects;
      return Success(objects);
    }

    method ReadToEnd() returns (bytes: seq<byte>)
      requires Valid()
      modifies this
      ensures Valid() && bytes == old(Left()) && Left() == []
    {
      bytes := buffer[offset..];
      offset := |buffer|;
    }

    method ReadList() returns (r: Result<seq<nat>>)
      requires Valid()
      modifies this
      ensures Valid() && (r.Success? <==> TakeList(old(Left())).Success?)
      ensures r.Success? ==> TakeList(old(Left())) == Success((r.value, Left()))
    {
      var count :- ReadInt(4);
      r := ReadMultipleInt(count);
    }
  }

  // ---------- message.py ----------

  /** Message.to_bytes: fails exactly when a field is out of range. */
  method ToBytes(m: Message) returns (r: Result<seq<byte>>)
    ensures r == if InRange(m) then Success(Encode(m)) else Failure
  {
    TypesFit(m);
    var writer := new MessageBytesWriter();
    var _ := writer.WriteInt(TypeValue(m), 2);
    var _ :- writer.WriteInt(m.clientId, 8);
    var written := WriteBody(writer, m);
    if written.Failure? {
      return Failure;
    }
    ThenNothing(Encode(m));
    return Success(writer.buffer);
  }

  lemma ThenNothing(s: seq<byte>)
    ensures Then(s, []) == s == Then([], s)
  {
  }

  lemma TypesFit(m: Message)
    ensures Fits(TypeValue(m), 2)
  {
    assert Power(2) == 65536;
  }

  /** The to_bytes_impl of the seven kinds. */
  method WriteBody(writer: MessageBytesWriter, m: Message) returns (r: Result<()>)
    requires Fits(m.clientId, 8)
    modifies writer
    ensures r.Success? <==> InRange(m)
    ensures r.Success? ==> writer.buffer == Then(old(writer.buffer), EncodeBody(m))
  {
    match m {
      case Protocol(_, id, payload) =>
        var _ :- writer.WriteInt(id, 8);
        writer.Write(payload);
      case ProtocolResult(_, tag, id, payload) =>
        var _ :- writer.WriteInt(tag, 1);
        var _ :- writer.WriteInt(id, 8);
        writer.Write(payload);
      case Eof(_, sent, dups) =>
        var _ :- writer.WriteInt(sent, 8);
        var _ :- writer.WriteList(dups);
      case EofDiscovery(_, _, _, _, _, _, _) =>
        var _ :- WriteRound(writer, m);
      case EofAggregation(_, _, _, _, _, _, _, records) =>
        var _ :- WriteRound(writer, m);
        var _ :- writer.WriteInt(|records|, 4);
        var _ :- writer.WriteRecords(records);
      case EofFinish(_, seen) =>
        var _ :- writer.WriteList(seen);
      case EofResult(_, tag, sent) =>
        var _ :- writer.WriteInt(tag, 1);
        var _ :- writer.WriteInt(sent, 8);
    }
    ThenNothing(writer.buffer);
    return Success(());
  }

  /** The fields that discovery and aggregation tokens write alike. */
  method WriteRound(writer: MessageBytesWriter, m: Message) returns (r: Result<()>)
    requires m.EofDiscovery? || m.EofAggregation?
    modifies writer
    ensures r.Success? <==> RoundFits(m)
    ensures r.Success? ==> forall rest :: Then(writer.buffer, rest) == Then(old(writer.buffer), RoundThen(m, rest))
  {
    hide Fits, ListFits, IntBytes, ListThen, Then;
    var _ :- writer.WriteInt(m.originalMessagesSent, 8);
    var _ :- writer.WriteList(m.originalPossibleDuplicates);
    var _ :- writer.WriteInt(m.messagesReceived, 8);
    var _ :- writer.WriteInt(m.messagesSent, 8);
    var _ :- writer.WriteList(m.possibleDuplicates);
    var _ :- writer.WriteList(m.replicaIdSeen);
    return Success(());
  }

  /** Message.from_bytes */
  method FromBytes(bytes: seq<byte>) returns (r: Result<Message>)
    ensures r.Success? <==> Decode(bytes).Success?
    ensures r.Success? ==> r.value == Decode(bytes).value.0
  {
    var reader := new MessageBytesReader(bytes);
    var kind :- reader.ReadInt(2);
    var client :- reader.ReadInt(8);
    if kind == 0 {
      var id :- reader.ReadInt(8);
      var payload := reader.ReadToEnd();
      return Success(Protocol(client, id, payload));
    } else if kind == 1 {
      var tag :- reader.ReadInt(1);
      var id :- reader.ReadInt(8);
      var payload := reader.ReadToEnd();
      return Success(ProtocolResult(client, tag, id, payload));
    } else if kind == 2 {
      var sent :- reader.ReadInt(8);
      var dups :- reader.ReadList();
      return Success(Eof(client, sent, dups));
    } else if kind == 3 || kind == 4 {
      r := RoundFromBytes(reader, kind, client);
    } else if kind == 5 {
      var seen :- reader.ReadList();
      return Success(EofFinish(client, seen));
    } else if kind == 6 {
      var tag :- reader.ReadInt(1);
      var sent :- reader.ReadInt(8);
      return Success(EofResult(client, tag, sent));
    } else {
      return Failure;
    }
  }

  /** The from_bytes of the discovery and aggregation tokens. */
  method RoundFromBytes(reader: MessageBytesReader, kind: nat, client: nat) returns (r: Result<Message>)
    requires reader.Valid()
    modifies reader
    ensures reader.Valid()
    ensures r.Success? <==> DecodeRound(kind, client, old(reader.Left())).Success?
    ensures r.Success? ==> DecodeRound(kind, client, old(reader.Left())) == Success((r.value, reader.Left()))
  {
    var sent :- reader.ReadInt(8);
    var dups :- reader.ReadList();
    var received :- reader.ReadInt(8);
    var sent' :- reader.ReadInt(8);
    var dups' :- reader.ReadList();
    var seen :- reader.ReadList();
    if kind == 3 {
      return Success(EofDiscovery(client, sent, dups, received, sent', dups', seen));
    }
    var count :- reader.ReadInt(4);
    var records :- reader.ReadMultipleObject(count);
    return Success(EofAggregation(client, sent, dups, received, sent', dups', seen, records));
  }

  // ---------- round trip ----------

  lemma TakesInt(value: int, size: nat, rest: seq<byte>)
    requires Fits(value, size)
    ensures TakeInt(Then(IntBytes(value, size), rest), size) == Success((value, rest))
  {
    IntRoundTrip(value, size);
    assert (IntBytes(value, size) + rest)[..size] == IntBytes(value, size);
    assert (IntBytes(value, size) + rest)[size..] == rest;
  }

  lemma {:induction false} TakesInts(values: seq<nat>, rest: seq<byte>)
    requires AllFit(values, 8)
    ensures TakeInts(Then(IntsBytes(values), rest), |values|) == Success((values, rest))
  {
    if values == [] {
      assert [] + rest == rest;
    } else {
      var later := Then(IntsBytes(values[1..]), rest);
      assert Then(IntsBytes(values), rest) == Then(IntBytes(values[0], 8), later);
      TakesInt(values[0], 8, later);
      TakesInts(values[1..], rest);
      assert values == [values[0]] + values[1..];
    }
  }

  lemma TakesList(values: seq<nat>, rest: seq<byte>)
    requires ListFits(values)
    ensures TakeList(ListThen(values, rest)) == Success((values, rest))
  {
    TakesInt(|values|, 4, Then(IntsBytes(values), rest));
    TakesInts(values, rest);
  }

  lemma TakesRecord(r: ProcessedMessage, rest: seq<byte>)
    requires Fits(r.id, 8)
    ensures TakeRecord(Then(RecordBytes(r), rest)) == Success((r, rest))
  {
    IntRoundTrip(r.id, 8);
    assert (RecordBytes(r) + rest)[1..9] == IntBytes(r.id, 8);
    assert (RecordBytes(r) + rest)[9..] == rest;
  }

  lemma {:induction false} TakesRecords(records: seq<ProcessedMessage>, rest: seq<byte>)
    requires AllRecordsFit(records)
    ensures TakeRecords(Then(RecordsBytes(records), rest), |records|) == Success((records, rest))
  {
    if records == [] {
      assert [] + rest == rest;
    } else {
      var later := Then(RecordsBytes(records[1..]), rest);
      assert Then(RecordsBytes(records), rest) == Then(RecordBytes(records[0]), later);
      TakesRecord(records[0], later);
      TakesRecords(records[1..], rest);
      assert records == [records[0]] + records[1..];
    }
  }

  lemma TakesRecordList(records: seq<ProcessedMessage>, rest: seq<byte>)
    requires Fits(|records|, 4) && AllRecordsFit(records)
    ensures TakeRecordList(RecordsThen(records, rest)) == Success((records, rest))
  {
    TakesInt(|records|, 4, Then(RecordsBytes(records), rest));
    TakesRecords(records, rest);
  }

  lemma TakesRound(m: Message)
    requires InRange(m) && (m.EofDiscovery? || m.EofAggregation?)
    ensures DecodeRound(TypeValue(m), m.clientId, EncodeBody(m)) == Success((m, []))
  {
    hide TakeInt, TakeList, TakeRecordList, Then, IntBytes, ListThen, RecordsThen, ListFits, Fits, AllRecordsFit;
    var s5 := if m.EofDiscovery? then [] else RecordsThen(m.processedBy, []);
    var s4 := ListThen(m.replicaIdSeen, s5);
    var s3 := ListThen(m.possibleDuplicates, s4);
    var s2 := Then(IntBytes(m.messagesSent, 8), s3);
    var s1 := Then(IntBytes(m.messagesReceived, 8), s2);
    TakesInt(m.originalMessagesSent, 8, ListThen(m.originalPossibleDuplicates, s1));
    TakesList(m.originalPossibleDuplicates, s1);
    TakesInt(m.messagesReceived, 8, s2);
    TakesInt(m.messagesSent, 8, s3);
    TakesList(m.possibleDuplicates, s4);
    TakesList(m.replicaIdSeen, s5);
    if m.EofAggregation? {
      TakesRecordList(m.processedBy, []);
    }
  }

  lemma BodyRoundTrip(m: Message)
    requires InRange(m)
    ensures DecodeBody(TypeValue(m), m.clientId, EncodeBody(m)) == Success((m, []))
  {
    hide TakeInt, TakeList, DecodeRound, Then, IntBytes, ListThen, ListFits, Fits, AllRecordsFit;
    match m
    case Protocol(_, id, payload) =>
      ThenNothing(payload);
      TakesInt(id, 8, payload);
    case ProtocolResult(_, tag, id, payload) =>
      ThenNothing(payload);
      TakesInt(tag, 1, Then(IntBytes(id, 8), payload));
      TakesInt(id, 8, payload);
    case Eof(_, sent, dups) =>
      TakesInt(sent, 8, ListThen(dups, []));
      TakesList(dups, []);
    case EofFinish(_, seen) => TakesList(seen, []);
    case EofResult(_, tag, sent) =>
      TakesInt(tag, 1, Then(IntBytes(sent, 8), []));
      TakesInt(sent, 8, []);
    case EofDiscovery(_, _, _, _, _, _, _) => TakesRound(m);
    case EofAggregation(_, _, _, _, _, _, _, _) => TakesRound(m);
  }

  /** Every message of every kind whose fields are in range is decoded from its bytes, and
      nothing is left in the reader. */
  lemma MessageRoundTrip(m: Message)
    requires InRange(m)
    ensures Decode(Encode(m)) == Success((m, []))
  {
    TypesFit(m);
    hide TakeInt, DecodeBody, EncodeBody, Then;
    TakesInt(TypeValue(m), 2, Then(IntBytes(m.clientId, 8), EncodeBody(m)));
    TakesInt(m.clientId, 8, EncodeBody(m));
    BodyRoundTrip(m);
  }

  /** Distinct messages have distinct encodings. */
  lemma EncodingIsInjective(a: Message, b: Message)
    requires InRange(a) && InRange(b) && Encode(a) == Encode(b)
    ensures a == b
  {
    MessageRoundTrip(a);
    MessageRoundTrip(b);
  }

  // ---------- the layout, byte by byte ----------

  /** The number in the `size` bytes from position `at` on, most significant byte first. */
  predicate Holds(b: seq<byte>, at: nat, size: nat, value: int) {
    at + size <= |b| && BytesInt(b[at..at + size]) == value
  }

  /** Four bytes for the length, and eight for each element. */
  predicate HoldsList(b: seq<byte>, at: nat, values: seq<int>) {
    Holds(b, at, 4, |values|) && forall i :: 0 <= i < |values| ==> Holds(b, at + 4 + 8 * i, 8, values[i])
  }

  /** One byte that is 1 if the output was sent, else 0, and the id. */
  predicate HoldsRecord(b: seq<byte>, at: nat, r: ProcessedMessage) {
    Holds(b, at, 1, if r.sent then 1 else 0) && Holds(b, at + 1, 8, r.id)
  }

  /** Four bytes for the length, and nine for each record. */
  predicate HoldsRecords(b: seq<byte>, at: nat, records: seq<ProcessedMessage>) {
    Holds(b, at, 4, |records|) && forall i :: 0 <= i < |records| ==> HoldsRecord(b, at + 4 + 9 * i, records[i])
  }

  /** The shared fields of the two round tokens, `n` bytes in all. */
  predicate HoldsRound(b: seq<byte>, at: nat, m: Message, n: nat)
    requires m.EofDiscovery? || m.EofAggregation?
  {
    var counters := at + 12 + 8 * |m.originalPossibleDuplicates|;
    var seen := counters + 20 + 8 * |m.possibleDuplicates|;
    && Holds(b, at, 8, m.originalMessagesSent) && HoldsList(b, at + 8, m.originalPossibleDuplicates)
    && Holds(b, counters, 8, m.messagesReceived) && Holds(b, counters + 8, 8, m.messagesSent)
    && HoldsList(b, counters + 16, m.possibleDuplicates) && HoldsList(b, seen, m.replicaIdSeen)
    && at + n == seen + 4 + 8 * |m.replicaIdSeen|
  }

  /** Where each field of each kind of message is, and how long the message is. */
  predicate LaidOut(b: seq<byte>, m: Message) {
    && Holds(b, 2, 8, m.clientId)
    && match m
       case Protocol(_, id, payload) =>
         Holds(b, 0, 2, 0) && Holds(b, 10, 8, id) && |b| >= 18 && b[18..] == payload
       case ProtocolResult(_, tag, id, payload) =>
         && Holds(b, 0, 2, 1) && Holds(b, 10, 1, tag) && Holds(b, 11, 8, id)
         && |b| >= 19 && b[19..] == payload
       case Eof(_, sent, dups) =>
         Holds(b, 0, 2, 2) && Holds(b, 10, 8, sent) && HoldsList(b, 18, dups) && |b| == 22 + 8 * |dups|
       case EofDiscovery(_, _, _, _, _, _, _) =>
         Holds(b, 0, 2, 3) && |b| >= 10 && HoldsRound(b, 10, m, |b| - 10)
       case EofAggregation(_, _, _, _, _, _, _, records) =>
         && Holds(b, 0, 2, 4)
         && exists n: nat ::
              |b| == 14 + n + 9 * |records| && HoldsRound(b, 10, m, n) && HoldsRecords(b, 10 + n, records)
       case EofFinish(_, seen) => Holds(b, 0, 2, 5) && HoldsList(b, 10, seen) && |b| == 14 + 8 * |seen|
       case EofResult(_, tag, sent) =>
         Holds(b, 0, 2, 6) && Holds(b, 10, 1, tag) && Holds(b, 11, 8, sent) && |b| == 19
  }

  /** The first byte is the most significant one. */
  lemma {:induction false} MostSignificantFirst(first: byte, rest: seq<byte>)
    ensures BytesInt([first] + rest) == first as nat * Power(|rest|) + BytesInt(rest)
    ensures Power(|rest| + 1) == 256 * Power(|rest|) && Power(0) == 1
  {
    if rest != [] {
      var front := rest[..|rest| - 1];
      MostSignificantFirst(first, front);
      assert ([first] + rest)[..|rest|] == [first] + front;
    } else {
      assert ([first] + rest)[..0] == [];
    }
  }

  /** What is at some position is there, further on, when bytes come first. */
  lemma HoldsBehind(before: seq<byte>, b: seq<byte>, at: nat, size: nat, value: int)
    requires Holds(b, at, size, value)
    ensures Holds(before + b, |before| + at, size, value)
  {
    assert (before + b)[|before| + at..|before| + at + size] == b[at..at + size];
  }

  lemma HoldsListBehind(before: seq<byte>, b: seq<byte>, at: nat, values: seq<int>)
    requires HoldsList(b, at, values)
    ensures HoldsList(before + b, |before| + at, values)
  {
    HoldsBehind(before, b, at, 4, |values|);
    forall i | 0 <= i < |values|
      ensures Holds(before + b, |before| + at + 4 + 8 * i, 8, values[i])
    {
      HoldsBehind(before, b, at + 4 + 8 * i, 8, values[i]);
    }
  }

  lemma IntFirst(value: int, size: nat, rest: seq<byte>)
    requires Fits(value, size)
    ensures Holds(Then(IntBytes(value, size), rest), 0, size, value)
  {
    IntRoundTrip(value, size);
    assert (IntBytes(value, size) + rest)[0..size] == IntBytes(value, size);
  }

  lemma {:induction false} IntsHold(values: seq<int>, rest: seq<byte>)
    requires AllFit(values, 8)
    ensures |IntsBytes(values)| == 8 * |values|
    ensures forall i :: 0 <= i < |values| ==> Holds(IntsBytes(values) + rest, 8 * i, 8, values[i])
  {
    if values != [] {
      var later := IntsBytes(values[1..]) + rest;
      IntsHold(values[1..], rest);
      assert IntsBytes(values) + rest == IntBytes(values[0], 8) + later;
      IntFirst(values[0], 8, later);
      forall i | 0 < i < |values|
        ensures Holds(IntsBytes(values) + rest, 8 * i, 8, values[i])
      {
        HoldsBehind(IntBytes(values[0], 8), later, 8 * (i - 1), 8, values[1..][i - 1]);
      }
    }
  }

  lemma ListFirst(values: seq<int>, rest: seq<byte>)
    requires ListFits(values)
    ensures HoldsList(ListThen(values, rest), 0, values)
    ensures |ListThen(values, rest)| == 4 + 8 * |values| + |rest|
    ensures ListThen(values, rest)[4 + 8 * |values|..] == rest
  {
    var ints := IntsBytes(values) + rest;
    IntsHold(values, rest);
    IntFirst(|values|, 4, ints);
    forall i | 0 <= i < |values|
      ensures Holds(ListThen(values, rest), 4 + 8 * i, 8, values[i])
    {
      HoldsBehind(IntBytes(|values|, 4), ints, 8 * i, 8, values[i]);
    }
  }

  lemma ThenThen(a: seq<byte>, b: seq<byte>, c: seq<byte>)
    ensures Then(a, Then(b, c)) == Then(Then(a, b), c)
    ensures Then(a, b) == a + b && |Then(a, b)| == |a| + |b|
  {
  }

  /** An integer behind what has been written, and the rest behind it. */
  lemma PutInt(before: seq<byte>, value: int, size: nat, rest: seq<byte>)
    requires Fits(value, size)
    ensures Holds(Then(before, Then(IntBytes(value, size), rest)), |before|, size, value)
    ensures Then(before, Then(IntBytes(value, size), rest)) == Then(Then(before, IntBytes(value, size)), rest)
    ensures |Then(before, IntBytes(value, size))| == |before| + size
  {
    hide Then, Holds, IntBytes, Fits;
    var bytes := IntBytes(value, size);
    ThenThen(before, bytes, rest);
    ThenThen(before, Then(bytes, rest), []);
    IntFirst(value, size, rest);
    HoldsBehind(before, Then(bytes, rest), 0, size, value);
  }

  lemma PutList(before: seq<byte>, values: seq<int>, rest: seq<byte>)
    requires ListFits(values)
    ensures HoldsList(Then(before, ListThen(values, rest)), |before|, values)
    ensures Then(before, ListThen(values, rest)) == Then(Then(before, ListThen(values, [])), rest)
    ensures |Then(before, ListThen(values, []))| == |before| + 4 + 8 * |values|
  {
    ListSplits(values, rest);
    hide Then, HoldsList, ListThen, ListFits;
    ListFirst(values, rest);
    ListFirst(values, []);
    ThenThen(before, ListThen(values, []), rest);
    ThenThen(before, ListThen(values, rest), []);
    HoldsListBehind(before, ListThen(values, rest), 0, values);
  }

  lemma ListSplits(values: seq<int>, rest: seq<byte>)
    requires ListFits(values)
    ensures ListThen(values, rest) == Then(ListThen(values, []), rest)
  {
    var size, ints := IntBytes(|values|, 4), IntsBytes(values);
    assert size + (ints + rest) == (size + (ints + [])) + rest;
    hide IntBytes, IntsBytes;
  }

  lemma HoldsRecordBehind(before: seq<byte>, b: seq<byte>, at: nat, r: ProcessedMessage)
    requires HoldsRecord(b, at, r)
    ensures HoldsRecord(before + b, |before| + at, r)
  {
    HoldsBehind(before, b, at, 1, if r.sent then 1 else 0);
    HoldsBehind(before, b, at + 1, 8, r.id);
  }

  lemma {:induction false} RecordsHold(records: seq<ProcessedMessage>)
    requires AllRecordsFit(records)
    ensures |RecordsBytes(records)| == 9 * |records|
    ensures forall i :: 0 <= i < |records| ==> HoldsRecord(RecordsBytes(records), 9 * i, records[i])
  {
    if records != [] {
      var first, later := RecordBytes(records[0]), RecordsBytes(records[1..]);
      RecordsHold(records[1..]);
      RecordHolds(records[0], later);
      assert |first| == 9;
      hide HoldsRecord, RecordBytes;
      forall i | 0 < i < |records|
        ensures HoldsRecord(first + later, 9 * i, records[i])
      {
        assert HoldsRecord(later, 9 * (i - 1), records[1..][i - 1]);
        HoldsRecordBehind(first, later, 9 * (i - 1), records[i]);
      }
    }
  }

  lemma RecordHolds(r: ProcessedMessage, later: seq<byte>)
    requires Fits(r.id, 8)
    ensures HoldsRecord(RecordBytes(r) + later, 0, r)
  {
    var flag: seq<byte> := [if r.sent then 1 else 0];
    assert flag[..0] == [];
    assert BytesInt(flag) == if r.sent then 1 else 0;
    assert (RecordBytes(r) + later)[0..1] == flag;
    IntRoundTrip(r.id, 8);
    assert (RecordBytes(r) + later)[1..9] == IntBytes(r.id, 8);
  }

  lemma RecordsBehind(before: seq<byte>, records: seq<ProcessedMessage>)
    requires AllRecordsFit(records)
    ensures forall i :: 0 <= i < |records| ==>
      HoldsRecord(Then(before, RecordsBytes(records)), |before| + 9 * i, records[i])
    ensures |RecordsBytes(records)| == 9 * |records|
  {
    hide HoldsRecord, RecordsBytes, Then, AllRecordsFit;
    var b := RecordsBytes(records);
    RecordsHold(records);
    ThenThen(before, b, []);
    forall i | 0 <= i < |records|
      ensures HoldsRecord(Then(before, b), |before| + 9 * i, records[i])
    {
      HoldsRecordBehind(before, b, 9 * i, records[i]);
    }
  }

  lemma PutRecords(before: seq<byte>, records: seq<ProcessedMessage>)
    requires Fits(|records|, 4) && AllRecordsFit(records)
    ensures HoldsRecords(Then(before, RecordsThen(records, [])), |before|, records)
    ensures |Then(before, RecordsThen(records, []))| == |before| + 4 + 9 * |records|
  {
    hide Holds, HoldsRecord, RecordsBytes, IntBytes, Then;
    var b, ahead := RecordsBytes(records), Then(before, IntBytes(|records|, 4));
    ThenNothing(b);
    PutInt(before, |records|, 4, b);
    ThenThen(ahead, b, []);
    RecordsBehind(ahead, records);
    assert Then(before, RecordsThen(records, [])) == Then(ahead, b);
    hide RecordsThen;
    forall i | 0 <= i < |records|
      ensures HoldsRecord(Then(ahead, b), |before| + 4 + 9 * i, records[i])
    {
      assert HoldsRecord(Then(ahead, b), |ahead| + 9 * i, records[i]);
    }
  }

  /** The bytes of the shared fields of a round token. */
  function RoundSize(m: Message): nat
    requires m.EofDiscovery? || m.EofAggregation?
  {
    36 + 8 * |m.originalPossibleDuplicates| + 8 * |m.possibleDuplicates| + 8 * |m.replicaIdSeen|
  }

  lemma PutRound(before: seq<byte>, m: Message, rest: seq<byte>) returns (written: seq<byte>)
    requires (m.EofDiscovery? || m.EofAggregation?) && RoundFits(m)
    ensures HoldsRound(Then(before, RoundThen(m, rest)), |before|, m, RoundSize(m))
    ensures Then(before, RoundThen(m, rest)) == Then(written, rest) && |written| == |before| + RoundSize(m)
  {
    hide Then, ListThen, IntBytes, Holds, HoldsList, Fits, ListFits;
    var s5 := ListThen(m.replicaIdSeen, rest);
    var s4 := ListThen(m.possibleDuplicates, s5);
    var s3 := Then(IntBytes(m.messagesSent, 8), s4);
    var s2 := Then(IntBytes(m.messagesReceived, 8), s3);
    var s1 := ListThen(m.originalPossibleDuplicates, s2);
    var b1 := Then(before, IntBytes(m.originalMessagesSent, 8));
    var b2 := Then(b1, ListThen(m.originalPossibleDuplicates, []));
    var b3 := Then(b2, IntBytes(m.messagesReceived, 8));
    var b4 := Then(b3, IntBytes(m.messagesSent, 8));
    var b5 := Then(b4, ListThen(m.possibleDuplicates, []));
    written := Then(b5, ListThen(m.replicaIdSeen, []));
    PutInt(before, m.originalMessagesSent, 8, s1);
    PutList(b1, m.originalPossibleDuplicates, s2);
    PutInt(b2, m.messagesReceived, 8, s3);
    PutInt(b3, m.messagesSent, 8, s4);
    PutList(b4, m.possibleDuplicates, s5);
    PutList(b5, m.replicaIdSeen, rest);
  }

  /** The type and the client in front of every message. */
  lemma PutHead(m: Message) returns (head: seq<byte>)
    requires InRange(m)
    ensures Encode(m) == Then(head, EncodeBody(m)) && |head| == 10
    ensures Holds(Encode(m), 0, 2, TypeValue(m)) && Holds(Encode(m), 2, 8, m.clientId)
  {
    TypesFit(m);
    var kind, client := IntBytes(TypeValue(m), 2), IntBytes(m.clientId, 8);
    head := Then(kind, client);
    hide EncodeBody, Fits, IntBytes, Then, Holds;
    PutInt([], TypeValue(m), 2, Then(client, EncodeBody(m)));
    PutInt(kind, m.clientId, 8, EncodeBody(m));
    ThenNothing(Encode(m));
  }

  /** A last field that is an integer or plain bytes. */
  lemma PutLast(before: seq<byte>, bytes: seq<byte>)
    ensures Then(bytes, []) == bytes && |Then(before, bytes)| == |before| + |bytes|
    ensures Then(before, bytes)[|before|..] == bytes
  {
  }

  /** The bytes of every message are laid out field by field, without gaps. */
  lemma EncodedIsLaidOut(m: Message)
    requires InRange(m)
    ensures LaidOut(Encode(m), m)
  {
    hide Encode, IntBytes, Then, ListThen, Fits, ListFits, Holds, HoldsList, RecordsThen, HoldsRecords, HoldsRound;
    hide RoundThen, AllRecordsFit, RoundFits;
    var head := PutHead(m);
    match m
    case Protocol(_, id, payload) => ProtocolLaidOut(head, id, payload);
    case ProtocolResult(_, tag, id, payload) =>
      PutInt(head, tag, 1, Then(IntBytes(id, 8), Then(payload, [])));
      ProtocolLaidOut(Then(head, IntBytes(tag, 1)), id, payload);
    case Eof(_, sent, dups) =>
      PutInt(head, sent, 8, ListThen(dups, []));
      PutList(Then(head, IntBytes(sent, 8)), dups, []);
    case EofDiscovery(_, _, _, _, _, _, _) =>
      var written := PutRound(head, m, []);
      ThenNothing(written);
    case EofAggregation(_, _, _, _, _, _, _, records) =>
      var written := PutRound(head, m, RecordsThen(records, []));
      PutRecords(written, records);
    case EofFinish(_, seen) =>
      PutList(head, seen, []);
      ThenNothing(Then(head, ListThen(seen, [])));
    case EofResult(_, tag, sent) =>
      PutInt(head, tag, 1, Then(IntBytes(sent, 8), []));
      PutInt(Then(head, IntBytes(tag, 1)), sent, 8, []);
      ThenNothing(Then(Then(head, IntBytes(tag, 1)), IntBytes(sent, 8)));
  }

  lemma ProtocolLaidOut(before: seq<byte>, id: int, payload: seq<byte>)
    requires Fits(id, 8)
    ensures var b := Then(before, Then(IntBytes(id, 8), Then(payload, [])));
      Holds(b, |before|, 8, id) && |b| >= |before| + 8 && b[|before| + 8..] == payload
  {
    hide IntBytes, Holds, Fits;
    PutInt(before, id, 8, Then(payload, []));
    PutLast(Then(before, IntBytes(id, 8)), payload);
    hide Then;
  }
}
