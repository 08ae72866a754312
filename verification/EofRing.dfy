/**
 The EOF token of one client (commons/communication.py:376-667): what each
 replica does with it in the Discovery, Aggregation and Finish phases, and how
 the token moves round the replicas of a stage.
 */
module EofRing {
  import opened Sequences
  import opened Messages

  /** The receiver settings that the EOF handlers read.
      `topic` says that a routing key is set; `fanOut` is load_balancer_send_multiply. */
  datatype Config = Config(replicaId: nat, replicasCount: nat, topic: bool, hasSender: bool,
                           catcher: bool, fanOut: Option<nat>)

  /** What one replica holds about the client of the token: its two counters, the ids
      it suspects, the ids its sender announces with the EOF, and its saved log records. */
  datatype View = View(received: int, sent: int, duplicates: seq<nat>, announced: seq<nat>,
                       log: seq<ProcessedMessage>)

  /** What an EOF announces to the stage that receives it: how many messages were sent to
      it, and which ids may have been sent more than once. */
  datatype Account = Account(sent: int, duplicates: seq<nat>)

  /** The outcome of handling one token: the new view, the tokens published, ACK or NACK,
      how often the EOF callback ran, and the verdict when the round just succeeded. */
  datatype Hop = Hop(view: View, out: seq<Message>, ack: bool, callbacks: nat, verdict: Option<Account>)

  // ---------- the log search and the duplicate count ----------

  /** The records whose id is searched for, newest first. */
  function Search(log: seq<ProcessedMessage>, ids: seq<nat>): seq<ProcessedMessage> {
    if log == [] then []
    else
      var last := log[|log| - 1];
      (if last.id in ids then [last] else []) + Search(log[..|log| - 1], ids)
  }

  function SentOnly(s: seq<ProcessedMessage>): seq<ProcessedMessage> {
    if s == [] then [] else (if s[0].sent then [s[0]] else []) + SentOnly(s[1..])
  }

  function Kinds(s: seq<ProcessedMessage>): set<ProcessedMessage> {
    set e | e in s
  }

  /** How many records repeat an earlier one. */
  function Repeats(s: seq<ProcessedMessage>): int {
    |s| - |Kinds(s)|
  }

  /** (duplicates received, duplicates sent) */
  function CountDuplicates(cfg: Config, found: seq<ProcessedMessage>): (int, int) {
    (Repeats(found),
     Repeats(SentOnly(found)) * if cfg.fanOut.Some? && cfg.fanOut.value != 0 then cfg.fanOut.value else 1)
  }

  // ---------- the handlers ----------

  function UpdateDiscovery(cfg: Config, v: View, m: Message): Message
    requires m.EofDiscovery?
  {
    EofDiscovery(m.clientId, m.originalMessagesSent, m.originalPossibleDuplicates,
                 m.messagesReceived + v.received,
                 m.messagesSent + (if cfg.hasSender then v.sent else 0),
                 m.possibleDuplicates + v.duplicates,
                 m.replicaIdSeen + [cfg.replicaId])
  }

  function UpdateAggregation(cfg: Config, v: View, m: Message): Message
    requires m.EofAggregation?
  {
    EofAggregation(m.clientId, m.originalMessagesSent, m.originalPossibleDuplicates,
                   m.messagesReceived, m.messagesSent, m.possibleDuplicates,
                   m.replicaIdSeen + [cfg.replicaId],
                   if cfg.catcher then m.processedBy
                   else m.processedBy + Search(v.log, m.possibleDuplicates + m.originalPossibleDuplicates))
  }

  function UpdateFinish(cfg: Config, m: Message): Message
    requires m.EofFinish?
  {
    EofFinish(m.clientId, m.replicaIdSeen + [cfg.replicaId])
  }

  function HandleFinish(cfg: Config, v: View, m: Message): Hop
    requires m.EofFinish?
  {
    if cfg.replicaId in m.replicaIdSeen then Hop(v, [], false, 0, None)
    else
      var n := UpdateFinish(cfg, m);
      Hop(v, if |n.replicaIdSeen| < cfg.replicasCount then [n] else [], true,
          if cfg.topic then 1 else 0, None)
  }

  function HandleAggregation(cfg: Config, v: View, m: Message): Hop
    requires m.EofAggregation?
  {
    if cfg.replicaId in m.replicaIdSeen then Hop(v, [], false, 0, None)
    else
      var n := UpdateAggregation(cfg, v, m);
      if |n.replicaIdSeen| < cfg.replicasCount then Hop(v, [n], true, 0, None) else Conclude(cfg, v, n)
  }

  /** The last replica of the round decides. */
  function Conclude(cfg: Config, v: View, n: Message): Hop
    requires n.EofAggregation?
  {
    var duplicates := CountDuplicates(cfg, n.processedBy);
    var realReceived := n.messagesReceived - duplicates.0;
    var realSent := n.messagesSent - duplicates.1;
    if realReceived == n.originalMessagesSent then
      var suspects := n.possibleDuplicates + n.originalPossibleDuplicates;
      var v' := if cfg.hasSender then v.(sent := realSent, announced := suspects) else v;
      var finish := HandleFinish(cfg, v', EofFinish(n.clientId, []));
      finish.(callbacks := finish.callbacks + (if cfg.topic then 0 else 1),
              verdict := Some(Account(realSent, suspects)))
    else
      Hop(v, [Eof(n.clientId, n.originalMessagesSent, n.originalPossibleDuplicates)], true, 0, None)
  }

  function HandleDiscovery(cfg: Config, v: View, m: Message): Hop
    requires m.EofDiscovery?
  {
    if cfg.replicaId in m.replicaIdSeen then Hop(v, [], false, 0, None)
    else
      var n := UpdateDiscovery(cfg, v, m);
      if |n.replicaIdSeen| < cfg.replicasCount then Hop(v, [n], true, 0, None)
      else HandleAggregation(cfg, v, ToAggregation(n))
  }

  function ToDiscovery(m: Message): Message
    requires m.Eof?
  {
    EofDiscovery(m.clientId, m.messagesSent, m.possibleDuplicates, 0, 0, [], [])
  }

  function ToAggregation(n: Message): Message
    requires n.EofDiscovery?
  {
    EofAggregation(n.clientId, n.originalMessagesSent, n.originalPossibleDuplicates,
                   n.messagesReceived, n.messagesSent, n.possibleDuplicates, [], [])
  }

  /** The token kinds that are requeued among the replicas. */
  predicate IsToken(m: Message) {
    m.Eof? || m.EofDiscovery? || m.EofAggregation? || m.EofFinish?
  }

  function Handle(cfg: Config, v: View, m: Message): Hop
    requires IsToken(m)
  {
    match m
    case Eof(_, _, _) => HandleDiscovery(cfg, v, ToDiscovery(m))
    case EofDiscovery(_, _, _, _, _, _, _) => HandleDiscovery(cfg, v, m)
    case EofAggregation(_, _, _, _, _, _, _, _) => HandleAggregation(cfg, v, m)
    case EofFinish(_, _) => HandleFinish(cfg, v, m)
  }

  /** A receiver without a sender adds nothing to the sent count and overwrites nothing. */
  lemma SenderlessHop(cfg: Config, v: View, m: Message)
    requires IsToken(m) && !cfg.hasSender
    ensures Handle(cfg, v, m).view == v
    ensures m.EofDiscovery? ==> UpdateDiscovery(cfg, v, m).messagesSent == m.messagesSent
  {
    hide CountDuplicates, Search;
  }

  /** What the EOF callback makes the sender announce (with the default arguments of send_eof). */
  function SendEof(v: View): Account {
    Account(v.sent, v.announced)
  }
}
