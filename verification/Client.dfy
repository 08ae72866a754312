/** The client's stop-and-wait connection (client/protocol_connection.py:85-134). */
module Client {
  import opened Sequences
  import opened Permutations

  datatype ClientMessage =
    | Data(messageId: nat)
    | EndOfFile(messagesSent: nat, possibleDuplicates: seq<nat>)

  /** What one transmission is answered with: an ACK, another message, or a broken
      connection, after which the client reconnects and runs on. */
  datatype Answer = Acked | OtherMessage | Disconnected

  /** A transmission of the message at `position` of the queue, as it was sent. */
  datatype Transmission = Transmission(position: nat, message: ClientMessage)

  /** How often the message at `position` has been transmitted. */
  function Times(sent: seq<Transmission>, position: nat): nat {
    if sent == [] then 0
    else Times(sent[..|sent| - 1], position) + if sent[|sent| - 1].position == position then 1 else 0
  }

  /** A data message with this id, before `limit`, has been transmitted more than once. */
  ghost predicate Repeated(script: seq<ClientMessage>, sent: seq<Transmission>, limit: nat, id: nat) {
    exists j :: 0 <= j < limit && j < |script| && script[j] == Data(id) && Times(sent, j) >= 2
  }

  /** The transmission is that of the queued message; an EOF lists exactly the ids that had
      been repeated before it. */
  ghost predicate Honest(script: seq<ClientMessage>, sent: seq<Transmission>, k: nat)
    requires k < |sent|
  {
    var t := sent[k];
    && t.position < |script|
    && (script[t.position].Data? ==> t.message == script[t.position])
    && (script[t.position].EndOfFile? ==>
          && t.message.EndOfFile? && t.message.messagesSent == script[t.position].messagesSent
          && forall id :: id in t.message.possibleDuplicates <==> Repeated(script, sent[..k], t.position, id))
  }

  function Files(script: seq<ClientMessage>): nat {
    if script == [] then 0 else Files(script[..|script| - 1]) + if script[|script| - 1].EndOfFile? then 1 else 0
  }

  lemma TimesLast(sent: seq<Transmission>, t: Transmission, j: nat)
    ensures Times(sent + [t], j) == Times(sent, j) + if j == t.position then 1 else 0
  {
    assert (sent + [t])[..|sent|] == sent;
  }

  lemma FilesLast(script: seq<ClientMessage>, n: nat)
    requires n < |script|
    ensures Files(script[..n + 1]) == Files(script[..n]) + if script[n].EndOfFile? then 1 else 0
  {
    assert script[..n + 1][..n] == script[..n];
  }

  /** Stop and wait: the first `acked` messages have been transmitted, the next one only when
      it is pending, none behind it; and no EOF twice. */
  ghost predicate Ordered(script: seq<ClientMessage>, sent: seq<Transmission>, acked: nat, pending: bool) {
    && acked + (if pending then 1 else 0) <= |script|
    && forall j :: 0 <= j < |script| ==>
         && (Times(sent, j) >= 1 <==> j < acked || (j == acked && pending))
         && (script[j].EndOfFile? ==> Times(sent, j) <= 1)
  }

  lemma OneMore(script: seq<ClientMessage>, sent: seq<Transmission>, acked: nat, pending: bool, m: ClientMessage)
    requires Ordered(script, sent, acked, pending) && acked < |script| && (pending ==> script[acked].Data?)
    ensures Ordered(script, sent + [Transmission(acked, m)], acked, true)
  {
    forall j | 0 <= j < |script|
      ensures Times(sent + [Transmission(acked, m)], j) == Times(sent, j) + if j == acked then 1 else 0
    {
      TimesLast(sent, Transmission(acked, m), j);
    }
  }

  /** Only sending a pending message again adds a repeated id. */
  lemma RepeatedAfter(script: seq<ClientMessage>, sent: seq<Transmission>, acked: nat, pending: bool,
                      m: ClientMessage, id: nat)
    requires Ordered(script, sent, acked, pending) && acked < |script|
    ensures Repeated(script, sent + [Transmission(acked, m)], |script|, id)
       <==> Repeated(script, sent, |script|, id) || (pending && script[acked] == Data(id))
  {
    var sent' := sent + [Transmission(acked, m)];
    forall j: nat
      ensures Times(sent', j) == Times(sent, j) + if j == acked then 1 else 0
    {
      TimesLast(sent, Transmission(acked, m), j);
    }
    if j :| 0 <= j < |script| && script[j] == Data(id) && Times(sent, j) >= 2 {
      assert Times(sent', j) >= 2;
    }
    if pending && script[acked] == Data(id) {
      assert Times(sent', acked) >= 2;
    }
    if j :| 0 <= j < |script| && script[j] == Data(id) && Times(sent', j) >= 2 {
      assert j == acked || Times(sent, j) >= 2;
    }
  }

  /** Before a message is sent for the first time, all repeats are behind it. */
  lemma RepeatedBefore(script: seq<ClientMessage>, sent: seq<Transmission>, acked: nat, id: nat)
    requires Ordered(script, sent, acked, false)
    ensures Repeated(script, sent, acked, id) <==> Repeated(script, sent, |script|, id)
  {
    if j :| 0 <= j < |script| && script[j] == Data(id) && Times(sent, j) >= 2 {
      assert j < acked;
    }
  }

  ghost predicate AllHonest(script: seq<ClientMessage>, sent: seq<Transmission>) {
    forall k :: 0 <= k < |sent| ==> Honest(script, sent, k)
  }

  lemma HonestMore(script: seq<ClientMessage>, sent: seq<Transmission>, t: Transmission)
    requires AllHonest(script, sent) && Honest(script, sent + [t], |sent|)
    ensures AllHonest(script, sent + [t])
  {
    forall k | 0 <= k < |sent|
      ensures Honest(script, sent + [t], k)
    {
      assert Honest(script, sent, k);
      assert (sent + [t])[..k] == sent[..k] && (sent + [t])[k] == sent[k];
    }
  }

  /** The list holds exactly the ids of the data messages transmitted more than once. */
  ghost predicate Listed(script: seq<ClientMessage>, sent: seq<Transmission>, possibleDuplicates: seq<nat>) {
    forall id :: id in possibleDuplicates <==> Repeated(script, sent, |script|, id)
  }

  /** A transmission of the message in turn keeps the books. */
  lemma Transmitted(script: seq<ClientMessage>, sent: seq<Transmission>, acked: nat, pending: bool, m: ClientMessage,
                    before: seq<nat>, after: seq<nat>)
    requires Ordered(script, sent, acked, pending) && AllHonest(script, sent) && Listed(script, sent, before)
    requires acked < |script| && (pending ==> script[acked].Data?)
    requires after == if pending then before + [script[acked].messageId] else before
    requires m == if script[acked].Data? then script[acked] else EndOfFile(script[acked].messagesSent, after)
    ensures var sent' := sent + [Transmission(acked, m)];
      Ordered(script, sent', acked, true) && AllHonest(script, sent') && Listed(script, sent', after)
  {
    var t := Transmission(acked, m);
    OneMore(script, sent, acked, pending, m);
    forall id
      ensures Repeated(script, sent + [t], |script|, id)
         <==> Repeated(script, sent, |script|, id) || (pending && script[acked] == Data(id))
    {
      RepeatedAfter(script, sent, acked, pending, m, id);
    }
    assert Honest(script, sent + [t], |sent|) by {
      assert (sent + [t])[..|sent|] == sent;
      forall id | !pending
        ensures Repeated(script, sent, acked, id) <==> Repeated(script, sent, |script|, id)
      {
        RepeatedBefore(script, sent, acked, id);
      }
    }
    HonestMore(script, sent, t);
    hide Repeated, Ordered, AllHonest;
  }

  class ProtocolConnection {
    var sendQueue: seq<ClientMessage>
    var currentMessage: Option<ClientMessage>
    var eofsReceived: nat
    var possibleDuplicates: seq<nat>
    var sendingMessages: bool
    /** The AttributeError of resending an EOF, which has no message_id. */
    var failed: bool
    ghost var script: seq<ClientMessage>
    ghost var acked: nat
    ghost var sent: seq<Transmission>

    /** The message behind the acknowledged ones is current or still first in the queue:
        nothing is taken from the queue before its predecessor has been acknowledged. */
    ghost predicate Queued()
      reads this
    {
      && acked + (if currentMessage.Some? then 1 else 0) <= |script|
      && sendQueue == script[acked + (if currentMessage.Some? then 1 else 0)..]
      && (currentMessage.Some? ==>
            if script[acked].Data? then currentMessage.value == script[acked]
            else currentMessage.value.EndOfFile? && currentMessage.value.messagesSent == script[acked].messagesSent)
    }

    ghost predicate Books()
      reads this
    {
      && Queued()
      && Ordered(script, sent, acked, currentMessage.Some?)
      && AllHonest(script, sent)
      && Listed(script, sent, possibleDuplicates)
      && eofsReceived == Files(script[..acked])
    }

    ghost predicate Valid()
      reads this
    {
      Books() && (sendingMessages <==> eofsReceived < 2)
    }

    constructor (messages: seq<ClientMessage>)
      ensures Valid() && script == messages && acked == 0 && sent == [] && !failed
    {
      sendQueue, currentMessage, eofsReceived, possibleDuplicates := messages, None, 0, [];
      sendingMessages, failed := true, false;
      script, acked, sent := messages, 0, [];
      new;
      assert script[..0] == [];
    }

    /** An ACK makes room for the next message; any other answer leaves the message current. */
    method ReceiveAck(answer: Answer)
      requires Books() && currentMessage.Some?
      modifies this`currentMessage, this`eofsReceived, this`acked
      ensures Books() && acked == old(acked) + if answer.Acked? then 1 else 0
      ensures currentMessage == if answer.Acked? then None else old(currentMessage)
      ensures old(eofsReceived) <= eofsReceived <= old(eofsReceived) + 1
    {
      if answer.Acked? {
        NowAcked(script, sent, acked);
        FilesLast(script, acked);
        if currentMessage.value.EndOfFile? {
          eofsReceived := eofsReceived + 1;
        }
        currentMessage := None;
        acked := acked + 1;
      }
    }

    /** One turn of the sending loop: the next message, or the unacknowledged one again.
        Only an ACK moves on; sending an EOF again is the one thing that fails. */
    method SendOnce(answer: Answer)
      requires Valid() && sendingMessages && !failed && (currentMessage.Some? || sendQueue != [])
      modifies this
      ensures script == old(script)
      ensures failed <==> old(currentMessage.Some? && currentMessage.value.EndOfFile?)
      ensures failed ==>
        && sent == old(sent) && acked == old(acked) && currentMessage == old(currentMessage)
        && sendQueue == old(sendQueue) && possibleDuplicates == old(possibleDuplicates)
        && eofsReceived == old(eofsReceived) && sendingMessages == old(sendingMessages)
      ensures !failed ==> Valid() && |sent| == |old(sent)| + 1 && sent[..|old(sent)|] == old(sent)
      ensures !failed ==> sent[|old(sent)|].position == old(acked)
      ensures !failed ==> acked == old(acked) + if answer.Acked? then 1 else 0
    {
      hide Ordered, AllHonest, Listed, Files;
      ghost var pending := currentMessage.Some?;
      if currentMessage.None? {
        currentMessage, sendQueue := Some(sendQueue[0]), sendQueue[1..];
      } else if currentMessage.value.EndOfFile? {
        failed := true;
        return;
      } else {
        possibleDuplicates := possibleDuplicates + [currentMessage.value.messageId];
      }
      if currentMessage.value.EndOfFile? {
        currentMessage := Some(EndOfFile(currentMessage.value.messagesSent, possibleDuplicates));
      }
      Transmitted(script, sent, acked, pending, currentMessage.value, old(possibleDuplicates), possibleDuplicates);
      sent := sent + [Transmission(acked, currentMessage.value)];
      ReceiveAck(answer);
      if eofsReceived == 2 {
        sendingMessages := false;
      }
    }

    /** The sending loop over any sequence of answers: it stops after the ACK of the second
        EOF, when nothing is queued, or when an EOF would have to be sent again. */
    method Run(answers: seq<Answer>) returns (used: nat)
      requires Valid() && sendingMessages && !failed
      modifies this
      ensures script == old(script) && used <= |answers|
      ensures !failed ==> Valid()
      ensures AllHonest(script, sent) && Ordered(script, sent, acked, currentMessage.Some?)
      ensures failed ==> used > 0
      ensures var answered := if failed then used - 1 else used;
        && |sent| == |old(sent)| + answered && sent[..|old(sent)|] == old(sent)
        && acked == old(acked) + |Filter(answers[..answered], (a: Answer) => a == Acked)|
      ensures used < |answers| ==> failed || !sendingMessages || (currentMessage.None? && sendQueue == [])
    {
      used := 0;
      while used < |answers| && sendingMessages && !failed && (currentMessage.Some? || sendQueue != [])
        invariant used <= |answers| && script == old(script)
        invariant !failed ==> Valid()
        invariant AllHonest(script, sent) && Ordered(script, sent, acked, currentMessage.Some?)
        invariant failed ==> used > 0
        invariant |sent| == |old(sent)| + (if failed then used - 1 else used) && sent[..|old(sent)|] == old(sent)
        invariant acked == old(acked) + |Filter(answers[..if failed then used - 1 else used], IsAck())|
      {
        SendOnce(answers[used]);
        assert answers[..used + 1] == answers[..used] + [answers[used]];
        FilterLast(answers[..used], answers[used], IsAck());
        used := used + 1;
      }
      assert IsAck() == ((a: Answer) => a == Acked);
    }
  }

  function IsAck(): Answer -> bool {
    (a: Answer) => a == Acked
  }

  lemma NowAcked(script: seq<ClientMessage>, sent: seq<Transmission>, acked: nat)
    requires Ordered(script, sent, acked, true)
    ensures Ordered(script, sent, acked + 1, false)
  {
  }
}
