/**
 The receiver and sender objects of one replica (commons/communication.py): the
 PROTOCOL branch of the callback, and the EOF handlers.
 */
module Receivers {
  import opened Sequences
  import opened Messages
  import opened EofRing
  import opened Logs
  import opened Recovery
  import opened Loggers
  import opened Accounting
  import opened Answers

  /** What the broker is told about a delivery; nothing at all when its body does not parse. */
  datatype Reply = Ack | Requeue | Discard | Silence

  class Sender<M> {
    var messagesSent: map<nat, int>
    var possibleDuplicates: map<nat, seq<nat>>
    var eofs: seq<Message>
    const storer: LogStorer<M>

    constructor (sent: map<nat, int>, duplicates: map<nat, seq<nat>>, storer: LogStorer<M>)
      ensures messagesSent == sent && possibleDuplicates == duplicates && eofs == [] && this.storer == storer
    {
      messagesSent, possibleDuplicates, eofs, this.storer := sent, duplicates, [], storer;
    }

    /** One published message: counted, then logged, with whatever the storer is at. */
    method SendAll(client: nat)
      requires storer.logger.Valid()
      modifies this`messagesSent, storer.logger
      ensures messagesSent == old(messagesSent)[client := Get(old(messagesSent), client, 0) + 1]
      ensures storer.logger.Appended(old(storer.logger.Disk()), old(storer.logger.appends), SentOp(storer.At()))
      ensures storer.logger.communicationLog == old(storer.logger.communicationLog) + [Line.Sent(storer.At())]
      ensures old(storer.Current()) ==> storer.Current()
    {
      var sent := if client in messagesSent then messagesSent[client] else 0;
      messagesSent := messagesSent[client := sent + 1];
      storer.MessageSent();
    }

    /** Publishes the next stage's EOF; a number that is given and not 0 replaces the counter. */
    method SendEof(client: nat, sent: Option<int>)
      modifies this`eofs
      ensures sent == None || sent.value == 0 ==>
        eofs == old(eofs) + [Eof(client, Get(messagesSent, client, 0), Get(possibleDuplicates, client, []))]
      ensures sent.Some? && sent.value != 0 ==>
        eofs == old(eofs) + [Eof(client, sent.value, Get(possibleDuplicates, client, []))]
    {
      var number := if sent.Some? && sent.value != 0 then sent.value
                    else if client in messagesSent then messagesSent[client] else 0;
      var suspects := if client in possibleDuplicates then possibleDuplicates[client] else [];
      eofs := eofs + [Eof(client, number, suspects)];
    }
  }

  // ---------- count_duplicates ----------

  /** The counting dictionary in insertion order: every key once, with its number of occurrences. */
  ghost predicate Counts(s: seq<ProcessedMessage>, keys: seq<ProcessedMessage>, counter: map<ProcessedMessage, int>) {
    && Distinct(keys)
    && (forall e :: e in keys <==> e in counter)
    && (forall e :: e in counter <==> e in s)
    && (forall e :: e in counter ==> counter[e] == multiset(s)[e])
  }

  method Tally(found: seq<ProcessedMessage>) returns (keys: seq<ProcessedMessage>, counter: map<ProcessedMessage, int>)
    ensures Counts(found, keys, counter)
  {
    keys, counter := [], map[];
    for i := 0 to |found|
      invariant Counts(found[..i], keys, counter)
    {
      var e := found[i];
      assert found[..i + 1] == found[..i] + [e];
      if e !in counter {
        keys := keys + [e];
      }
      counter := counter[e := (if e in counter then counter[e] else 0) + 1];
    }
    assert found[..|found|] == found;
  }

  /** The sum of the surplus occurrences over the first keys. */
  function Surplus(keys: seq<ProcessedMessage>, found: seq<ProcessedMessage>): int {
    if keys == [] then 0 else multiset(found)[keys[|keys| - 1]] - 1 + Surplus(keys[..|keys| - 1], found)
  }

  lemma {:induction false} SurplusOf(keys: seq<ProcessedMessage>, found: seq<ProcessedMessage>)
    requires Distinct(keys) && (forall e :: e in found ==> e in keys)
    ensures Surplus(keys, found) == |found| - |keys|
  {
    if keys == [] {
      assert keys == [] && forall e :: e !in keys;
      assert forall e :: e in multiset(found) ==> e in found;
      assert multiset(found) == multiset{};
      assert |multiset(found)| == |found|;
    } else {
      var front, last := keys[..|keys| - 1], keys[|keys| - 1];
      assert last !in front;
      var rest := Without(found, last);
      WithoutCounts(found, last);
      forall e | e in rest
        ensures e in front
      {
        assert multiset(rest)[e] > 0 && e in multiset(found);
        assert e in keys && keys == front + [last];
      }
      SurplusOf(front, rest);
      SameSurplus(front, found, rest);
    }
  }

  function Without(s: seq<ProcessedMessage>, x: ProcessedMessage): seq<ProcessedMessage> {
    if s == [] then [] else (if s[0] == x then [] else [s[0]]) + Without(s[1..], x)
  }

  lemma {:induction false} WithoutCounts(s: seq<ProcessedMessage>, x: ProcessedMessage)
    ensures |Without(s, x)| == |s| - multiset(s)[x]
    ensures forall e :: multiset(Without(s, x))[e] == if e == x then 0 else multiset(s)[e]
  {
    if s != [] {
      assert s == [s[0]] + s[1..];
      WithoutCounts(s[1..], x);
    }
  }

  lemma {:induction false} SameSurplus(keys: seq<ProcessedMessage>, a: seq<ProcessedMessage>, b: seq<ProcessedMessage>)
    requires forall e :: e in keys ==> multiset(a)[e] == multiset(b)[e]
    ensures Surplus(keys, a) == Surplus(keys, b)
  {
    if keys != [] {
      SameSurplus(keys[..|keys| - 1], a, b);
    }
  }

  lemma {:induction false} KeysCount(keys: seq<ProcessedMessage>)
    requires Distinct(keys)
    ensures |Kinds(keys)| == |keys|
  {
    if keys != [] {
      var front, last := keys[..|keys| - 1], keys[|keys| - 1];
      assert last !in front;
      KeysCount(front);
      assert Kinds(keys) == Kinds(front) + {last} by {
        assert keys == front + [last];
      }
    }
  }

  lemma SentOnlyIn(s: seq<ProcessedMessage>, e: ProcessedMessage)
    ensures e in SentOnly(s) <==> e in s && e.sent
  {
    SentOnlyCount(s, e);
    assert e in SentOnly(s) <==> multiset(SentOnly(s))[e] > 0;
    assert e in s <==> multiset(s)[e] > 0;
  }

  lemma {:induction false} SentOnlyDistinct(s: seq<ProcessedMessage>)
    requires Distinct(s)
    ensures Distinct(SentOnly(s))
  {
    if s != [] {
      SentOnlyDistinct(s[1..]);
      SentOnlyIn(s[1..], s[0]);
    }
  }

  /** Summing count - 1 over the sent keys counts the repeats among the sent records. */
  lemma SentSurplus(keys: seq<ProcessedMessage>, found: seq<ProcessedMessage>)
    requires Distinct(keys) && (forall e :: e in keys <==> e in found)
    ensures Surplus(keys, found) == Repeats(found)
    ensures Surplus(SentOnly(keys), found) == Repeats(SentOnly(found))
  {
    SurplusOf(keys, found);
    KeysCount(keys);
    assert Kinds(keys) == Kinds(found);
    var sentKeys, sentFound := SentOnly(keys), SentOnly(found);
    forall e: ProcessedMessage
      ensures e in sentKeys <==> e in sentFound
      ensures e in sentKeys ==> multiset(found)[e] == multiset(sentFound)[e]
    {
      SentOnlyIn(keys, e);
      SentOnlyIn(found, e);
      SentOnlyCount(found, e);
    }
    SentOnlyDistinct(keys);
    SameSurplus(sentKeys, found, sentFound);
    SurplusOf(sentKeys, sentFound);
    KeysCount(sentKeys);
    assert Kinds(sentKeys) == Kinds(sentFound);
  }

  lemma SurplusStep(keys: seq<ProcessedMessage>, i: nat, found: seq<ProcessedMessage>)
    requires i < |keys|
    ensures Surplus(keys[..i + 1], found) == Surplus(keys[..i], found) + multiset(found)[keys[i]] - 1
    ensures Surplus(SentOnly(keys[..i + 1]), found)
         == Surplus(SentOnly(keys[..i]), found) + (if keys[i].sent then multiset(found)[keys[i]] as int - 1 else 0)
  {
    var front, k := keys[..i], keys[i];
    assert keys[..i + 1] == front + [k] && keys[..i + 1][..i] == front;
    SentOnlyAppend(front, [k]);
    if k.sent {
      assert SentOnly([k]) == [k];
      assert (SentOnly(front) + [k])[..|SentOnly(front)|] == SentOnly(front);
    } else {
      assert SentOnly(front) + [] == SentOnly(front);
    }
  }

  /** The second loop of count_duplicates: takes one off every count. */
  method TakeOneOff(found: seq<ProcessedMessage>, keys: seq<ProcessedMessage>, tally: map<ProcessedMessage, int>)
    returns (counter: map<ProcessedMessage, int>)
    requires Counts(found, keys, tally)
    ensures forall e :: e in keys ==> e in counter && counter[e] == multiset(found)[e] - 1
  {
    counter := tally;
    for i := 0 to |keys|
      invariant forall k :: 0 <= k < |keys| ==>
        keys[k] in counter && counter[keys[k]] + (if k < i then 1 else 0) == multiset(found)[keys[k]]
    {
      counter := counter[keys[i] := counter[keys[i]] - 1];
    }
  }

  /** Adds up the counts, once over all keys and once over the sent ones. */
  method SumUp(found: seq<ProcessedMessage>, keys: seq<ProcessedMessage>, counter: map<ProcessedMessage, int>)
    returns (received: int, sent: int)
    requires forall e :: e in keys ==> e in counter && counter[e] + 1 == multiset(found)[e]
    ensures received == Surplus(keys, found) && sent == Surplus(SentOnly(keys), found)
  {
    received, sent := 0, 0;
    assert keys[..0] == [] && SentOnly(keys[..0]) == [];
    hide SentOnly;
    for i := 0 to |keys|
      invariant received == Surplus(keys[..i], found)
      invariant sent == Surplus(SentOnly(keys[..i]), found)
    {
      SurplusStep(keys, i, found);
      received := received + counter[keys[i]];
      if keys[i].sent {
        sent := sent + counter[keys[i]];
      }
    }
    assert keys[..|keys|] == keys;
  }

  /** CommunicationReceiver.count_duplicates: tally the records, take one off every count,
      and add up, once over all keys and once over the sent ones. */
  method CountRepeats(cfg: Config, found: seq<ProcessedMessage>) returns (received: int, sent: int)
    ensures (received, sent) == CountDuplicates(cfg, found)
    ensures received == |found| - |Kinds(found)|
    ensures var repeated := |SentOnly(found)| - |Kinds(SentOnly(found))|;
      sent == if cfg.fanOut.Some? && cfg.fanOut.value != 0 then repeated * cfg.fanOut.value else repeated
  {
    hide SentOnly, Kinds, Surplus;
    var keys, tally := Tally(found);
    var counter := TakeOneOff(found, keys, tally);
    received, sent := SumUp(found, keys, counter);
    hide Surplus, Counts;
    SentSurplus(keys, found);
    if cfg.fanOut.Some? && cfg.fanOut.value != 0 {
      sent := sent * cfg.fanOut.value;
    }
  }

  // ---------- the receiver ----------

  /** The log with more SENT lines in its last, unsaved cycle. */
  function WithSents(cs: seq<Cycle>, more: nat): seq<Cycle> {
    if cs == [] then [] else cs[|cs| - 1 := cs[|cs| - 1].(sents := cs[|cs| - 1].sents + more)]
  }

  function Sents<M>(m: Incoming<M>, n: nat): seq<Op<M>> {
    seq(n, _ => SentOp(Some((m.id, m.client))))
  }

  lemma InOrder<M>(history: seq<Op<M>>, settings: Settings, m: Incoming<M>, state: Logs.State)
    ensures history + [StartOp(m.id, m.client)] + Sents(m, SentLines(m.sends))
            + (if Keeps(settings, m) then [ConnectionOp(m.client, Record(m.id, m.batch))] else [])
            + (if settings.catcher then [CatcherOp(m.client, m.id)] else [])
            + [SaveOp(state), CommitOp]
         == history + Ops(settings, m, state)
  {
  }

  /** All the appends of a message, as the disk shows them in the end. */
  lemma WholeCycle<M>(settings: Settings, d: Disk<M>, m: Incoming<M>, state: Logs.State)
    ensures var d' := ApplyAll(d, Ops(settings, m, state));
      && d'.cycles == d.cycles + [Cycle(m.id, m.client, SentLines(m.sends), Some(state), true, [])]
      && d'.connections == (if Keeps(settings, m) then
             d.connections[m.client := Get(d.connections, m.client, []) + [Record(m.id, m.batch)]] else d.connections)
      && d'.caught
         == (if settings.catcher then d.caught[m.client := Get(d.caught, m.client, []) + [m.id]] else d.caught)
  {
    var ops := Ops(settings, m, state);
    OpsAt(settings, m, state);
    assert ops[..|ops|] == ops;
    PrefixOnDisk(settings, d, m, state, |ops|);
  }

  /** `published` are the EOF tokens requeued so far, `eofCallbacks` the clients whose EOF
      callback has run. */
  class Receiver<M> {
    const cfg: Config
    const settings: Settings
    const sender: Sender<M>
    const storer: LogStorer<M>
    const logger: Logger<M>
    var messagesReceived: map<nat, int>
    var possibleDuplicates: map<nat, seq<nat>>
    var duplicateCatchers: map<nat, DuplicateCatcher>
    var published: seq<Message>
    var eofCallbacks: seq<nat>

    constructor (cfg: Config, settings: Settings, sender: Sender<M>, state: State)
      requires cfg.hasSender && settings.catcher == cfg.catcher && sender.storer.logger.Valid()
      ensures Valid() && this.cfg == cfg && this.settings == settings && this.sender == sender
      ensures messagesReceived == state.received && possibleDuplicates == state.duplicates && duplicateCatchers == map[]
    {
      this.cfg, this.settings, this.sender := cfg, settings, sender;
      storer, logger := sender.storer, sender.storer.logger;
      messagesReceived, possibleDuplicates, duplicateCatchers := state.received, state.duplicates, map[];
      published, eofCallbacks := [], [];
    }

    /** One log for all, and a catcher of its own for every client. */
    ghost predicate Valid()
      reads this, logger
    {
      && sender.storer == storer && storer.logger == logger
      && cfg.hasSender && settings.catcher == cfg.catcher
      && logger.Valid()
      && forall a, b :: a in duplicateCatchers && b in duplicateCatchers && a != b ==>
           duplicateCatchers[a] != duplicateCatchers[b]
    }

    ghost function State(): State
      reads this, sender
    {
      Logs.State(messagesReceived, sender.messagesSent, possibleDuplicates)
    }

    /** What the EOF protocol sees of this replica. */
    ghost function View(c: nat): View
      reads this, sender, logger
    {
      EofRing.View(Get(messagesReceived, c, 0), Get(sender.messagesSent, c, 0), Get(possibleDuplicates, c, []),
                   Get(sender.possibleDuplicates, c, []), Records(logger.cycles, c))
    }

    // ---------- data messages ----------

    ghost function Catchers(): set<object>
      reads this
    {
      set c | c in duplicateCatchers :: duplicateCatchers[c]
    }

    /** The ids that client c's catcher knows. */
    ghost function Known(c: nat): set<nat>
      reads this, Catchers()
    {
      if c in duplicateCatchers then duplicateCatchers[c].messagesId else {}
    }

    method CheckDuplicate(id: nat, client: nat) returns (duplicate: bool)
      requires Valid()
      modifies this`duplicateCatchers, Catchers()
      ensures Valid() && fresh(Catchers() - old(Catchers()))
      ensures duplicate <==> id in old(Known(client))
      ensures forall c :: Known(c) == old(Known(c)) + if c == client then {id} else {}
    {
      if client !in duplicateCatchers {
        var catcher := new DuplicateCatcher();
        duplicateCatchers := duplicateCatchers[client := catcher];
      }
      duplicate := duplicateCatchers[client].IsDuplicate(id);
    }

    /** The EOF that an answer asks for: with the given number, or if there is none (or 0) with
        the number of messages sent by then, and with the sender's suspects. */
    function EofFor(client: nat, sent: Option<int>): Message
      reads sender
    {
      Eof(client, if sent.Some? && sent.value != 0 then sent.value else Get(sender.messagesSent, client, 0),
          Get(sender.possibleDuplicates, client, []))
    }

    /** The storer is at this message, which has not been saved. */
    ghost predicate At(m: Incoming<M>)
      reads storer, logger
    {
      storer.logger == logger && storer.Current()
      && storer.currentMessageId == m.id && storer.currentClientId == m.client
    }

    /** Sends `n` messages with what belongs to the message `m`. */
    method SendTimes(m: Incoming<M>, n: nat)
      requires Valid() && At(m)
      modifies sender`messagesSent, logger
      ensures Valid() && At(m)
      ensures logger.appends == old(logger.appends) + Sents(m, n)
      ensures logger.connectionLogs == old(logger.connectionLogs) && logger.catcherLogs == old(logger.catcherLogs)
      ensures logger.cycles == WithSents(old(logger.cycles), n)
      ensures sender.messagesSent == (if n == 0 then old(sender.messagesSent)
             else old(sender.messagesSent)[m.client := Get(old(sender.messagesSent), m.client, 0) + n])
    {
      hide IsFile, Records;
      for i := 0 to n
        invariant Valid() && At(m)
        invariant logger.appends == old(logger.appends) + Sents(m, i)
        invariant logger.connectionLogs == old(logger.connectionLogs) && logger.catcherLogs == old(logger.catcherLogs)
        invariant logger.cycles == WithSents(old(logger.cycles), i)
        invariant sender.messagesSent == (if i == 0 then old(sender.messagesSent)
             else old(sender.messagesSent)[m.client := Get(old(sender.messagesSent), m.client, 0) + i])
      {
        sender.SendAll(m.client);
      }
    }

    /** send_messages_topic and send_messages: the rows by topic, or all in one message. */
    method SendMessages<R>(m: Incoming<M>, rows: seq<R>, topic: Option<R -> string>) returns (n: nat)
      requires Valid() && At(m) && rows != []
      modifies sender`messagesSent, logger
      ensures Valid() && At(m)
      ensures n == if topic.None? then 1 else |set i | 0 <= i < |rows| :: topic.value(rows[i])|
      ensures n > 0 && logger.appends == old(logger.appends) + Sents(m, n)
      ensures logger.connectionLogs == old(logger.connectionLogs) && logger.catcherLogs == old(logger.catcherLogs)
      ensures logger.cycles == WithSents(old(logger.cycles), n)
      ensures sender.messagesSent
           == old(sender.messagesSent)[m.client := Get(old(sender.messagesSent), m.client, 0) + n]
    {
      hide IsFile, Records, WithSents, Sents;
      n := 1;
      if topic.Some? {
        var byTopic := ByTopic(rows, topic.value);
        assert topic.value(rows[0]) in byTopic.Keys;
        n := |byTopic.Keys|;
      }
      SendTimes(m, n);
    }

    /** What there is to send, and the SENT line that closes it. */
    method SendRows<R>(m: Incoming<M>, rows: seq<R>, topic: Option<R -> string>)
      requires Valid() && At(m) && m.sends == MessagesFor(rows, topic)
      modifies sender`messagesSent, logger
      ensures Valid() && At(m) && (|rows| == 0 ==> m.sends == 0 && unchanged(logger))
      ensures |rows| > 0 ==> m.sends == if topic.None? then 1 else |set i | 0 <= i < |rows| :: topic.value(rows[i])|
      ensures |rows| > 0 ==> m.sends > 0
      ensures logger.appends == old(logger.appends) + Sents(m, SentLines(m.sends))
      ensures logger.connectionLogs == old(logger.connectionLogs) && logger.catcherLogs == old(logger.catcherLogs)
      ensures logger.cycles == WithSents(old(logger.cycles), SentLines(m.sends))
      ensures sender.messagesSent == (if m.sends == 0 then old(sender.messagesSent)
             else old(sender.messagesSent)[m.client := Get(old(sender.messagesSent), m.client, 0) + m.sends])
    {
      hide IsFile, Records;
      if |rows| > 0 {
        if topic.Some? {
          assert topic.value(rows[0]) in TopicsOf(rows, topic.value);
        }
        var n := SendMessages(m, rows, topic);
        assert n == m.sends;
        storer.MessageSent();
      }
    }

    /** Connection.process: a stateful processor's rows are kept for the save; the answers
        are gathered until one is not ready or raises; then every output is sent and counted,
        one more SENT line closes the sending, and an EOF follows if an answer asked for it. */
    method InputCallback<R(!new)>(m: Incoming<M>, answers: seq<Response<R>>, topic: Option<R -> string>,
                                  sent: Option<int>)
      returns (p: Processed<R>)
      requires Valid() && At(m) && storer.connectionMessages == []
      requires m.sends == Outputs(ProcessedBy(answers), topic)
      modifies sender`messagesSent, sender`eofs, storer`connectionMessages, logger
      ensures Valid() && At(m) && p == ProcessedBy(answers)
      ensures storer.connectionMessages == if settings.stateful then m.batch else []
      ensures !p.Rows? ==> unchanged(logger)
      ensures logger.appends == old(logger.appends) + Sents(m, SentLines(m.sends))
      ensures logger.connectionLogs == old(logger.connectionLogs) && logger.catcherLogs == old(logger.catcherLogs)
      ensures logger.cycles == WithSents(old(logger.cycles), SentLines(m.sends))
      ensures sender.messagesSent == (if m.sends == 0 then old(sender.messagesSent)
             else old(sender.messagesSent)[m.client := Get(old(sender.messagesSent), m.client, 0) + m.sends])
      ensures ComesTo(answers, p)
      ensures p.Rows? && |p.rows| == 0 ==> unchanged(logger) && sender.messagesSent == old(sender.messagesSent)
      ensures p.Rows? && |p.rows| > 0 ==>
        var n := if topic.None? then 1 else |set i | 0 <= i < |p.rows| :: topic.value(p.rows[i])|;
        && logger.appends == old(logger.appends) + seq(n + 1, _ => SentOp(Some((m.id, m.client))))
        && sender.messagesSent == old(sender.messagesSent)[m.client := Get(old(sender.messagesSent), m.client, 0) + n]
      ensures sender.eofs == old(sender.eofs) + if p.Rows? && p.sendEof then [EofFor(m.client, sent)] else []
    {
      hide IsFile, Records, MessagesFor, ProcessedBy, ComesTo;
      if settings.stateful {
        storer.StoreNewConnectionMessage(m.batch);
      }
      p := Gather(answers);
      if p.Rows? {
        hide Sents, WithSents;
        SendRows(m, p.rows, topic);
        if p.sendEof {
          sender.SendEof(m.client, sent);
        }
      }
    }

    /** CommunicationReceiver.callback for a data message. It appends exactly the cycle of
        the recovery model, in its order, also when processing raised; a duplicate, or a
        body that does not parse, leaves no trace; a message that is not ready leaves its
        START line and, when redelivered, its suspicion. */
    method Callback<R(!new)>(body: Option<Incoming<M>>, answers: seq<Response<R>>, topic: Option<R -> string>,
                       sent: Option<int>) returns (reply: Reply)
      requires Valid() && (body.Some? ==> body.value.sends == Outputs(ProcessedBy(answers), topic))
      modifies this`messagesReceived, this`possibleDuplicates, this`duplicateCatchers, Catchers(),
               sender`messagesSent, sender`eofs, storer, logger
      ensures Valid()
      ensures reply == if body.None? then Silence
                       else if settings.catcher && body.value.id in old(Known(body.value.client)) then Discard
                       else if StopsUnready(answers) then Requeue else Ack
      ensures forall c ::
        Known(c) == old(Known(c))
          + (if settings.catcher && body.Some? && c == body.value.client then {body.value.id} else {})
      ensures reply == Silence || reply == Discard ==> unchanged(logger) && State() == old(State())
      ensures reply != Ack || !AsksForEof(answers) || !AllGoOn(answers) ==> sender.eofs == old(sender.eofs)
      ensures reply == Ack && AsksForEof(answers) && AllGoOn(answers) ==>
        var client := body.value.client;
        sender.eofs == old(sender.eofs)
          + [Eof(client, if sent == None || sent.value == 0 then Get(sender.messagesSent, client, 0) else sent.value,
                 Get(sender.possibleDuplicates, client, []))]
      ensures reply == Requeue ==>
        && logger.appends == old(logger.appends) + [StartOp(body.value.id, body.value.client)]
        && logger.Disk() == Apply(old(logger.Disk()), StartOp(body.value.id, body.value.client))
        && State() == old(State()).(duplicates := StateAfter(old(State()), body.value).duplicates)
      ensures reply == Ack ==>
        && State() == StateAfter(old(State()), body.value)
        && logger.appends == old(logger.appends) + Ops(settings, body.value, State())
        && logger.Disk() == ApplyAll(old(logger.Disk()), Ops(settings, body.value, State()))
    {
      hide Outputs, ProcessedBy, Ops, ApplyAll, Apply, StateAfter, IsFile, Records, StopsUnready, AllGoOn, AsksForEof;
      if body.None? {
        return Silence;
      }
      var caught := IsCaught(body.value);
      if caught {
        return Discard;
      }
      reply := HandleMessage(body.value, answers, topic, sent);
    }

    method IsCaught(m: Incoming<M>) returns (caught: bool)
      requires Valid()
      modifies this`duplicateCatchers, Catchers()
      ensures Valid() && fresh(Catchers() - old(Catchers()))
      ensures caught <==> settings.catcher && m.id in old(Known(m.client))
      ensures forall c :: Known(c) == old(Known(c)) + if settings.catcher && c == m.client then {m.id} else {}
    {
      if !settings.catcher {
        return false;
      }
      caught := CheckDuplicate(m.id, m.client);
    }

    /** The rest of the branch, for a message that is not a duplicate. */
    method HandleMessage<R(!new)>(m: Incoming<M>, answers: seq<Response<R>>, topic: Option<R -> string>,
                                  sent: Option<int>)
      returns (reply: Reply)
      requires Valid() && m.sends == Outputs(ProcessedBy(answers), topic)
      modifies this`messagesReceived, this`possibleDuplicates, sender`messagesSent, sender`eofs, storer, logger
      ensures Valid() && reply == if StopsUnready(answers) then Requeue else Ack
      ensures reply != Ack || !AsksForEof(answers) || !AllGoOn(answers) ==> sender.eofs == old(sender.eofs)
      ensures reply == Ack && AsksForEof(answers) && AllGoOn(answers) ==>
        sender.eofs == old(sender.eofs) + [EofFor(m.client, sent)]
      ensures reply == Requeue ==>
        && logger.appends == old(logger.appends) + [StartOp(m.id, m.client)]
        && logger.Disk() == Apply(old(logger.Disk()), StartOp(m.id, m.client))
        && State() == old(State()).(duplicates := StateAfter(old(State()), m).duplicates)
      ensures reply == Ack ==>
        && State() == StateAfter(old(State()), m)
        && logger.appends == old(logger.appends) + Ops(settings, m, State())
        && logger.Disk() == ApplyAll(old(logger.Disk()), Ops(settings, m, State()))
    {
      hide IsFile, ApplyAll, Ops, Records, Outputs, ProcessedBy, StopsUnready, AllGoOn, AsksForEof;
      storer.NewMessageReceived(m.id, m.client);
      if m.redelivered {
        var known := if m.client in possibleDuplicates then possibleDuplicates[m.client] else [];
        possibleDuplicates := possibleDuplicates[m.client := known + [m.id]];
      }
      var requeue := ProcessAndSave(m, answers, topic, sent);
      if requeue {
        return Requeue;
      }
      InOrder(old(logger.appends), settings, m, State());
      WholeCycle(settings, old(logger.Disk()), m, State());
      return Ack;
    }

    /** Processing and saving add the rest of the message's cycle to the started log. */
    method ProcessAndSave<R(!new)>(m: Incoming<M>, answers: seq<Response<R>>, topic: Option<R -> string>,
                                   sent: Option<int>)
      returns (requeue: bool)
      requires Valid() && At(m) && storer.connectionMessages == [] && !storer.newMessageForDuplicateCatcher
      requires m.sends == Outputs(ProcessedBy(answers), topic)
      requires logger.cycles[|logger.cycles| - 1] == Cycle(m.id, m.client, 0, None, false, [])
      modifies this`messagesReceived, sender`messagesSent, sender`eofs, storer, logger
      ensures Valid() && requeue == StopsUnready(answers)
      ensures requeue || !AsksForEof(answers) || !AllGoOn(answers) ==> sender.eofs == old(sender.eofs)
      ensures !requeue && AsksForEof(answers) && AllGoOn(answers) ==>
        sender.eofs == old(sender.eofs) + [EofFor(m.client, sent)]
      ensures requeue ==>
        && unchanged(logger) && messagesReceived == old(messagesReceived)
        && sender.messagesSent == old(sender.messagesSent)
      ensures !requeue ==>
        && messagesReceived == old(messagesReceived)[m.client := Get(old(messagesReceived), m.client, 0) + 1]
        && sender.messagesSent == (if m.sends == 0 then old(sender.messagesSent)
             else old(sender.messagesSent)[m.client := Get(old(sender.messagesSent), m.client, 0) + m.sends])
        && logger.appends == old(logger.appends) + Sents(m, SentLines(m.sends))
             + (if Keeps(settings, m) then [ConnectionOp(m.client, Record(m.id, m.batch))] else [])
             + (if settings.catcher then [CatcherOp(m.client, m.id)] else [])
             + [SaveOp(State()), CommitOp]
        && logger.cycles == old(logger.cycles)[|old(logger.cycles)| - 1 :=
             Cycle(m.id, m.client, SentLines(m.sends), Some(State()), true, [])]
        && logger.connectionLogs == (if Keeps(settings, m) then
             old(logger.connectionLogs)[m.client :=
               Get(old(logger.connectionLogs), m.client, []) + [Record(m.id, m.batch)]]
             else old(logger.connectionLogs))
        && logger.catcherLogs == (if settings.catcher then
             old(logger.catcherLogs)[m.client := Get(old(logger.catcherLogs), m.client, []) + [m.id]]
             else old(logger.catcherLogs))
    {
      OneOutcome(answers);
      hide IsFile, Records, Outputs, ProcessedBy, StopsUnready, StopsRaising, AllGoOn, AsksForEof, AreRows;
      var p := InputCallback(m, answers, topic, sent);
      if p.Unready? {
        assert SentLines(m.sends) == 0 && Sents(m, 0) == [];
        return true;
      }
      SaveMessage(m);
      return false;
    }

    /** Hands the storer what the save will record. */
    method StoreState()
      requires Valid()
      modifies storer`currentState, storer`newMessageForDuplicateCatcher
      ensures storer.currentState == State()
      ensures storer.newMessageForDuplicateCatcher == (old(storer.newMessageForDuplicateCatcher) || settings.catcher)
    {
      storer.StoreMessagesReceived(messagesReceived);
      storer.StorePossibleDuplicates(possibleDuplicates);
      storer.StoreMessagesSent(sender.messagesSent);
      if settings.catcher {
        storer.StoreNewMessageForDuplicateCatcher();
      }
    }

    /** Counts the message, saves counters and suspects, and commits after the ACK. */
    method SaveMessage(m: Incoming<M>)
      requires Valid() && At(m) && !storer.newMessageForDuplicateCatcher
      requires storer.connectionMessages == (if settings.stateful then m.batch else [])
      modifies this`messagesReceived, storer, logger
      ensures Valid()
      ensures messagesReceived == old(messagesReceived)[m.client := Get(old(messagesReceived), m.client, 0) + 1]
      ensures logger.appends == old(logger.appends)
        + (if Keeps(settings, m) then [ConnectionOp(m.client, Record(m.id, m.batch))] else [])
        + (if settings.catcher then [CatcherOp(m.client, m.id)] else [])
        + [SaveOp(State()), CommitOp]
      ensures var n := |old(logger.cycles)| - 1;
        logger.cycles == old(logger.cycles)[n := old(logger.cycles)[n].(save := Some(State()), committed := true)]
      ensures logger.connectionLogs == (if Keeps(settings, m) then
        old(logger.connectionLogs)[m.client := Get(old(logger.connectionLogs), m.client, []) + [Record(m.id, m.batch)]]
        else old(logger.connectionLogs))
      ensures logger.catcherLogs == (if settings.catcher then
        old(logger.catcherLogs)[m.client := Get(old(logger.catcherLogs), m.client, []) + [m.id]]
        else old(logger.catcherLogs))
    {
      hide IsFile, Records;
      var received := if m.client in messagesReceived then messagesReceived[m.client] else 0;
      messagesReceived := messagesReceived[m.client := received + 1];
      StoreState();
      storer.FinishStoringMessage();
      storer.CommitMessage();
    }

    // ---------- EOF handlers ----------

    method RequeueEof(m: Message)
      modifies this`published
      ensures published == old(published) + [m]
    {
      published := published + [m];
    }

    /** Connection.handle_eof of a stage that sends an EOF and whose finish_processing is empty. */
    method EofCallback(client: nat)
      modifies this`eofCallbacks, sender`eofs
      ensures eofCallbacks == old(eofCallbacks) + [client]
      ensures sender.eofs
           == old(sender.eofs) + [Eof(client, SendEof(View(client)).sent, SendEof(View(client)).duplicates)]
    {
      sender.SendEof(client, None);
      eofCallbacks := eofCallbacks + [client];
    }

    /** Connection.handle_eof when finish_processing returned something: one message with all of
        it is sent and counted first, and logged with whatever the storer is at. */
    method EofCallbackWithOutput(client: nat)
      requires Valid()
      modifies this`eofCallbacks, sender`eofs, sender`messagesSent, logger
      ensures Valid() && eofCallbacks == old(eofCallbacks) + [client]
      ensures State().sent == old(State().sent)[client := Get(old(State().sent), client, 0) + 1]
      ensures logger.communicationLog == old(logger.communicationLog) + [Line.Sent(storer.At())]
      ensures sender.eofs == old(sender.eofs)
        + [Eof(client, Get(old(sender.messagesSent), client, 0) + 1, Get(sender.possibleDuplicates, client, []))]
      ensures forall memory: Memory<M> :: memory.state == old(State()) ==>
        var r := CalledBack(Replica(old(logger.Disk()), memory), client, storer.At());
        r.disk == logger.Disk() && r.memory.state == State()
    {
      hide IsFile, Records, WithSent;
      sender.SendAll(client);
      EofCallback(client);
    }

    /** The object has done what the hop says, and nothing to any other client. */
    twostate predicate Performed(client: nat, h: Hop, ack: bool)
      reads this, sender, logger
    {
      && Valid() && ack == h.ack && View(client) == h.view
      && published == old(published) + h.out
      && eofCallbacks == old(eofCallbacks) + seq(h.callbacks, _ => client)
      && sender.eofs
         == old(sender.eofs) + seq(h.callbacks, _ => Eof(client, SendEof(h.view).sent, SendEof(h.view).duplicates))
      && (forall c :: c != client ==> View(c) == old(View(c)))
      && unchanged(logger) && duplicateCatchers == old(duplicateCatchers)
    }

    method HandleEofFinish(m: Message) returns (ack: bool)
      requires Valid() && m.EofFinish?
      modifies this`published, this`eofCallbacks, sender`eofs
      ensures Performed(m.clientId, HandleFinish(cfg, old(View(m.clientId)), m), ack)
    {
      if cfg.replicaId in m.replicaIdSeen {
        return false;
      }
      var newFinish := EofFinish(m.clientId, m.replicaIdSeen + [cfg.replicaId]);
      if |newFinish.replicaIdSeen| < cfg.replicasCount {
        RequeueEof(newFinish);
      }
      if cfg.topic {
        EofCallback(m.clientId);
      }
      return true;
    }

    method UpdateAggregationEof(m: Message) returns (n: Message)
      requires Valid() && m.EofAggregation?
      ensures n == UpdateAggregation(cfg, View(m.clientId), m)
    {
      var records := m.processedBy;
      if !cfg.catcher {
        var found := logger.SearchForDuplicateMessages(m.clientId, m.possibleDuplicates + m.originalPossibleDuplicates);
        records := records + found;
      }
      n := EofAggregation(m.clientId, m.originalMessagesSent, m.originalPossibleDuplicates,
                          m.messagesReceived, m.messagesSent, m.possibleDuplicates,
                          m.replicaIdSeen + [cfg.replicaId], records);
    }

    /** The sender takes over the number and the suspects, the callback announces them, and
        the token starts to finish. */
    method Succeed(client: nat, realSent: int, suspects: seq<nat>) returns (ack: bool)
      requires Valid()
      modifies this`published, this`eofCallbacks, sender
      ensures var v := old(View(client)).(sent := realSent, announced := suspects);
        var h := HandleFinish(cfg, v, EofFinish(client, []));
        Performed(client, h.(callbacks := h.callbacks + (if cfg.topic then 0 else 1)), ack)
      ensures sender.eofs == old(sender.eofs) + [Eof(client, realSent, suspects)]
    {
      hide Records, IsFile;
      sender.messagesSent := sender.messagesSent[client := realSent];
      sender.possibleDuplicates := sender.possibleDuplicates[client := suspects];
      if !cfg.topic {
        EofCallback(client);
      }
      ack := HandleEofFinish(EofFinish(client, []));
    }

    /** The decision: on success the sender takes over number and suspects, and the EOF that
        the callback sends carries them; otherwise the EOF goes round again. */
    method Decide(n: Message) returns (ack: bool)
      requires Valid() && n.EofAggregation?
      modifies this`published, this`eofCallbacks, sender
      ensures Performed(n.clientId, Conclude(cfg, old(View(n.clientId)), n), ack)
      ensures var repeats := CountDuplicates(cfg, n.processedBy);
        if n.messagesReceived - repeats.0 == n.originalMessagesSent then
          sender.eofs == old(sender.eofs)
            + [Eof(n.clientId, n.messagesSent - repeats.1, n.possibleDuplicates + n.originalPossibleDuplicates)]
        else
          published == old(published) + [Eof(n.clientId, n.originalMessagesSent, n.originalPossibleDuplicates)]
    {
      hide Records, Search, IsFile;
      var duplicatesReceived, duplicatesSent := CountRepeats(cfg, n.processedBy);
      hide CountDuplicates, SentOnly, Kinds;
      var realReceived := n.messagesReceived - duplicatesReceived;
      var realSent := n.messagesSent - duplicatesSent;
      if realReceived == n.originalMessagesSent {
        ack := Succeed(n.clientId, realSent, n.possibleDuplicates + n.originalPossibleDuplicates);
      } else {
        RequeueEof(Eof(n.clientId, n.originalMessagesSent, n.originalPossibleDuplicates));
        return true;
      }
    }

    method HandleEofAggregation(m: Message) returns (ack: bool)
      requires Valid() && m.EofAggregation?
      modifies this`published, this`eofCallbacks, sender
      ensures Performed(m.clientId, HandleAggregation(cfg, old(View(m.clientId)), m), ack)
    {
      if cfg.replicaId in m.replicaIdSeen {
        return false;
      }
      var n := UpdateAggregationEof(m);
      hide Records, Search, IsFile, Conclude, CountDuplicates;
      if |n.replicaIdSeen| < cfg.replicasCount {
        RequeueEof(n);
        return true;
      }
      ack := Decide(n);
    }

    method HandleEofDiscovery(m: Message) returns (ack: bool)
      requires Valid() && m.EofDiscovery?
      modifies this`published, this`eofCallbacks, sender
      ensures Performed(m.clientId, HandleDiscovery(cfg, old(View(m.clientId)), m), ack)
    {
      if cfg.replicaId in m.replicaIdSeen {
        return false;
      }
      hide HandleAggregation, Records, IsFile;
      var c := m.clientId;
      var received := if c in messagesReceived then messagesReceived[c] else 0;
      var sent := if c in sender.messagesSent then sender.messagesSent[c] else 0;
      var suspects := if c in possibleDuplicates then possibleDuplicates[c] else [];
      var n := EofDiscovery(c, m.originalMessagesSent, m.originalPossibleDuplicates,
                            m.messagesReceived + received, m.messagesSent + sent,
                            m.possibleDuplicates + suspects, m.replicaIdSeen + [cfg.replicaId]);
      if |n.replicaIdSeen| < cfg.replicasCount {
        RequeueEof(n);
        return true;
      }
      var a := EofAggregation(n.clientId, n.originalMessagesSent, n.originalPossibleDuplicates,
                              n.messagesReceived, n.messagesSent, n.possibleDuplicates, [], []);
      assert HandleDiscovery(cfg, View(c), m) == HandleAggregation(cfg, View(c), a);
      hide Performed, View, Valid;
      ack := HandleEofAggregation(a);
    }

    method HandleEof(m: Message) returns (ack: bool)
      requires Valid() && m.Eof?
      modifies this`published, this`eofCallbacks, sender
      ensures Performed(m.clientId, Handle(cfg, old(View(m.clientId)), m), ack)
    {
      ack := HandleEofDiscovery(EofDiscovery(m.clientId, m.messagesSent, m.possibleDuplicates, 0, 0, [], []));
    }
  }
}
