/**
 One stage of the pipeline as a state machine for one client: N replicas, the
 broker queue they share, and the EOF token. Deliveries, crashes at any moment,
 restarts, redeliveries, messages of other clients and token hops interleave
 freely. The main result is that a round succeeds only when every message of the
 client has been processed, and that it then passes on an exact count and a list of
 every id that was or will be published twice.
 */
module EofStage {
  import opened Sequences
  import opened Messages
  import opened EofRing

  /** The stage has `n` replicas; `ids` are the distinct messages sent to it and
      `emits` those whose processing publishes an output. */
  datatype Params = Params(client: nat, n: nat, topic: bool, ids: set<nat>, emits: set<nat>)

  predicate ValidParams(p: Params) {
    p.n > 0 && p.emits <= p.ids
  }

  datatype Delivery = Delivery(id: nat, redelivered: bool)

  /** How the handling of one delivery ends. */
  datatype Outcome =
    | Done
    | NotReady                            // NACK with requeue, nothing saved
    | CrashBeforeSave(published: bool)    // the output may be out already, the record is not
    | CrashAfterSave(acked: bool)         // saved, but the COMMIT line is missing

  datatype Event =
    | Arrive(id: nat)
    | Deliver(replica: nat, delivery: Delivery, outcome: Outcome)
    | Redeliver(delivery: Delivery)                 // handed back unhandled, when its replica crashed
    | Restart(replica: nat)                         // a crash while nothing was being handled
    | OtherClient(replica: nat, outcome: Outcome)   // a message of another client
    | EofArrives(account: Account)
    | TokenHop(replica: nat)

  /** What a replica knows about the client: its counters, its suspects, and the records
      that the counters include. */
  datatype Counters = Counters(received: int, sent: int, duplicates: seq<nat>, counted: seq<ProcessedMessage>)

  /** What the log would give back: the state of the last COMMIT, and the state that a
      restart now would go on with. `counted` belongs to the counters in use. */
  datatype Backup = Backup(counted: seq<ProcessedMessage>, committed: Counters, restart: Counters)

  datatype Node = Node(view: View, backup: Backup)

  datatype Stage = Stage(views: seq<View>, backups: seq<Backup>, queue: multiset<Delivery>, token: Option<Message>,
                         arrived: multiset<nat>, emitted: multiset<nat>,
                         feed: Option<Account>, verdict: Option<Account>)

  const NOTHING := Counters(0, 0, [], [])

  function Init(p: Params): Stage {
    Stage(seq(p.n, _ => View(0, 0, [], [], [])), seq(p.n, _ => Backup([], NOTHING, NOTHING)),
          multiset{}, None, multiset{}, multiset{}, None, None)
  }

  // ---------- one replica ----------

  /** The memory in use. */
  function Now(n: Node): Counters {
    Counters(n.view.received, n.view.sent, n.view.duplicates, n.backup.counted)
  }

  /** The counters and suspects after a message that sent `sends` outputs. */
  function Processed(m: Counters, id: nat, redelivered: bool, sends: nat): Counters {
    Counters(m.received + 1, m.sent + sends, m.duplicates + (if redelivered then [id] else []),
           m.counted + [ProcessedMessage(id, sends > 0)])
  }

  /** Recovery puts the interrupted id among the suspects. */
  function Suspecting(m: Counters, id: nat): Counters {
    m.(duplicates := m.duplicates + [id])
  }

  function Remember(n: Node, m: Counters): Node {
    Node(View(m.received, m.sent, m.duplicates, n.view.announced, n.view.log), n.backup.(counted := m.counted))
  }

  /** A restart goes on with the restored memory, in the receiver and in the sender. */
  function Rebuilt(n: Node, m: Counters): Node {
    Node(View(m.received, m.sent, m.duplicates, m.duplicates, n.view.log),
         n.backup.(counted := m.counted, restart := m))
  }

  function Written(n: Node, e: ProcessedMessage): Node {
    n.(view := n.view.(log := n.view.log + [e]))
  }

  function Committed(n: Node): Node {
    n.(backup := n.backup.(committed := Now(n), restart := Now(n)))
  }

  /** The replica after a delivery. A crash before the save goes back to the last COMMIT, and
      takes along whatever was counted or suspected since. */
  function NodeAfter(n: Node, id: nat, redelivered: bool, sends: nat, outcome: Outcome): Node {
    var done := Processed(Now(n), id, redelivered, sends);
    var entry := ProcessedMessage(id, sends > 0);
    match outcome
    case Done => Committed(Remember(Written(n, entry), done))
    case NotReady =>
      var noted := Remember(n, Now(n).(duplicates := Now(n).duplicates + (if redelivered then [id] else [])));
      noted.(backup := noted.backup.(restart := Suspecting(n.backup.committed, id)))
    case CrashBeforeSave(_) => Rebuilt(n, Suspecting(n.backup.committed, id))
    case CrashAfterSave(_) => Rebuilt(Written(n, entry), Suspecting(done, id))
  }

  /** The same for a message of another client: its save and COMMIT cover all clients. */
  function NodeAside(n: Node, outcome: Outcome): Node {
    match outcome
    case Done => Committed(n)
    case NotReady => n.(backup := n.backup.(restart := n.backup.committed))
    case CrashBeforeSave(_) => Rebuilt(n, n.backup.committed)
    case CrashAfterSave(_) => Rebuilt(n, Now(n))
  }

  function Restarted(n: Node): Node {
    Rebuilt(n, n.backup.restart)
  }

  /** Does the broker get the message back? */
  predicate Returns(outcome: Outcome) {
    outcome.NotReady? || outcome.CrashBeforeSave? || (outcome.CrashAfterSave? && !outcome.acked)
  }

  predicate Publishes(outcome: Outcome) {
    outcome.Done? || outcome.CrashAfterSave? || (outcome.CrashBeforeSave? && outcome.published)
  }

  // ---------- the stage ----------

  function ConfigOf(p: Params, i: nat): Config {
    Config(i + 1, p.n, p.topic, true, false, None)
  }

  function Sends(p: Params, id: nat): nat {
    if id in p.emits then 1 else 0
  }

  predicate Enabled(p: Params, st: Stage, ev: Event) {
    match ev
    case Arrive(id) => true
    case Deliver(i, d, _) => i < |st.views| == |st.backups| && d in st.queue
    case Redeliver(d) => d in st.queue
    case Restart(i) => i < |st.views| == |st.backups|
    case OtherClient(i, _) => i < |st.views| == |st.backups|
    case EofArrives(_) => st.feed.None?
    case TokenHop(i) => i < |st.views| && st.token.Some? && IsToken(st.token.value)
  }

  function PutBack(d: Delivery, outcome: Outcome): multiset<Delivery> {
    if Returns(outcome) then multiset{Delivery(d.id, true)} else multiset{}
  }

  function Output(p: Params, d: Delivery, outcome: Outcome): multiset<nat> {
    if Publishes(outcome) && d.id in p.emits then multiset{d.id} else multiset{}
  }

  function NodeOf(st: Stage, i: nat): Node
    requires i < |st.views| == |st.backups|
  {
    Node(st.views[i], st.backups[i])
  }

  function WithNode(st: Stage, i: nat, n: Node): Stage
    requires i < |st.views| == |st.backups|
  {
    st.(views := st.views[i := n.view], backups := st.backups[i := n.backup])
  }

  function AfterDelivery(p: Params, st: Stage, i: nat, d: Delivery, outcome: Outcome): Stage
    requires i < |st.views| == |st.backups|
  {
    WithNode(st, i, NodeAfter(NodeOf(st, i), d.id, d.redelivered, Sends(p, d.id), outcome))
      .(queue := st.queue - multiset{d} + PutBack(d, outcome),
        emitted := st.emitted + Output(p, d, outcome))
  }

  function Applied(st: Stage, i: nat, h: Hop): Stage
    requires i < |st.views|
  {
    st.(views := st.views[i := h.view],
        token := if h.out == [] then None else Some(h.out[0]),
        verdict := if h.verdict.Some? then h.verdict else st.verdict)
  }

  function AfterHop(p: Params, st: Stage, i: nat): Stage
    requires Enabled(p, st, TokenHop(i))
  {
    var h := Handle(ConfigOf(p, i), st.views[i], st.token.value);
    if h.ack then Applied(st, i, h) else st
  }

  function Next(p: Params, st: Stage, ev: Event): Stage
    requires Enabled(p, st, ev)
  {
    match ev
    case Arrive(id) =>
      st.(queue := st.queue + multiset{Delivery(id, false)}, arrived := st.arrived + multiset{id})
    case Deliver(i, d, outcome) => AfterDelivery(p, st, i, d, outcome)
    case Redeliver(d) => st.(queue := st.queue - multiset{d} + multiset{Delivery(d.id, true)})
    case Restart(i) => WithNode(st, i, Restarted(NodeOf(st, i)))
    case OtherClient(i, outcome) => WithNode(st, i, NodeAside(NodeOf(st, i), outcome))
    case EofArrives(a) =>
      st.(feed := Some(a), token := Some(Eof(p.client, a.sent, a.duplicates)))
    case TokenHop(i) => AfterHop(p, st, i)
  }

  /** What the stage relies on: only ids of the client arrive, the EOF announces their
      number, and an id that is sent twice is on the EOF's list of suspects. */
  ghost predicate Honest(p: Params, st: Stage, ev: Event) {
    match ev
    case Arrive(id) =>
      id in p.ids && (st.feed.Some? && st.arrived[id] > 0 ==> id in st.feed.value.duplicates)
    case EofArrives(a) =>
      a.sent == |p.ids| && forall x :: x in st.arrived && st.arrived[x] >= 2 ==> x in a.duplicates
    case _ => true
  }

  ghost predicate HonestRun(p: Params, st: Stage, evs: seq<Event>)
    decreases |evs|
  {
    evs == [] || (Enabled(p, st, evs[0]) && Honest(p, st, evs[0]) && HonestRun(p, Next(p, st, evs[0]), evs[1..]))
  }

  ghost function Run(p: Params, st: Stage, evs: seq<Event>): Stage
    requires HonestRun(p, st, evs)
    decreases |evs|
  {
    if evs == [] then st else Run(p, Next(p, st, evs[0]), evs[1..])
  }

  // ---------- the invariant ----------

  function Entry(p: Params, id: nat): ProcessedMessage {
    ProcessedMessage(id, id in p.emits)
  }

  predicate IsEntry(p: Params, e: ProcessedMessage) {
    e.id in p.ids && e == Entry(p, e.id)
  }

  function Logs(views: seq<View>): (ls: seq<seq<ProcessedMessage>>)
    ensures |ls| == |views|
  {
    seq(|views|, i requires 0 <= i < |views| => views[i].log)
  }

  /** How often the stage has saved the message `id`, over all replicas. */
  function Logged(p: Params, st: Stage, id: nat): nat {
    multiset(Flatten(Logs(st.views)))[Entry(p, id)]
  }

  /** The message is over: no copy is left in the broker, and at most one save and one
      output came of it. */
  predicate Retired(p: Params, st: Stage, id: nat) {
    && Delivery(id, false) !in st.queue && Delivery(id, true) !in st.queue
    && st.arrived[id] >= 1
    && st.emitted[id] <= 1
    && Logged(p, st, id) <= 1
  }

  /** Counters are the sizes of what they include, which is part of the log; a sender's
      count may be overwritten once the stage has been closed. */
  ghost predicate CountersBooks(m: Counters, log: seq<ProcessedMessage>, open: bool) {
    && m.received == |m.counted|
    && (open ==> m.sent == |SentOnly(m.counted)|)
    && multiset(m.counted) <= multiset(log)
  }

  ghost predicate NodeBooks(p: Params, n: Node, open: bool) {
    && CountersBooks(Now(n), n.view.log, open)
    && CountersBooks(n.backup.committed, n.view.log, open)
    && CountersBooks(n.backup.restart, n.view.log, open)
    && (forall e :: e in n.view.log ==> IsEntry(p, e))
  }

  /** Every replica keeps its books, and everything in sight belongs to the client. */
  ghost predicate Books(p: Params, st: Stage) {
    && |st.views| == |st.backups| == p.n
    && (forall i :: 0 <= i < p.n ==> NodeBooks(p, NodeOf(st, i), st.verdict.None?))
    && (forall d :: d in st.queue ==> d.id in p.ids)
    && (forall x :: x in st.arrived ==> x in p.ids)
    && (forall x :: x in st.emitted ==> x in p.emits)
  }

  /** Never more copies in the broker than arrivals. */
  ghost predicate Copies(st: Stage) {
    forall x :: st.queue[Delivery(x, false)] + st.queue[Delivery(x, true)] <= st.arrived[x]
  }

  /** Nothing is saved or published of a message that has not been delivered yet. */
  ghost predicate Untouched(p: Params, st: Stage) {
    forall x :: st.arrived[x] == 0 || (st.arrived[x] <= 1 && Delivery(x, false) in st.queue) ==>
      st.emitted[x] == 0 && Logged(p, st, x) == 0
  }

  /** A message that arrived once and is counted by a memory that does not suspect it is over. */
  ghost predicate Over(p: Params, st: Stage, m: Counters) {
    forall e :: e in m.counted && e.id !in m.duplicates && st.arrived[e.id] <= 1 ==> Retired(p, st, e.id)
  }

  ghost predicate NodeOver(p: Params, st: Stage, n: Node) {
    Over(p, st, Now(n)) && Over(p, st, n.backup.committed) && Over(p, st, n.backup.restart)
  }

  ghost predicate Concluded(p: Params, st: Stage)
    requires |st.views| == |st.backups|
  {
    forall i :: 0 <= i < |st.views| ==> NodeOver(p, st, NodeOf(st, i))
  }

  /** Where the copies of a message can be. */
  ghost predicate Custody(p: Params, st: Stage)
    requires |st.views| == |st.backups|
  {
    Copies(st) && Untouched(p, st) && Concluded(p, st)
  }

  /** `seen` lists distinct replica ids. */
  predicate SeenOk(n: nat, seen: seq<nat>) {
    Distinct(seen) && (forall r :: r in seen ==> 1 <= r <= n)
  }

  /** `snap[i]` is the part of replica i's log that is already in the token's counters. */
  ghost predicate SnapOk(p: Params, st: Stage, seen: seq<nat>, received: int, sent: int,
                   duplicates: seq<nat>, snap: seq<seq<ProcessedMessage>>)
    requires |st.views| == p.n
  {
    && |snap| == p.n
    && (forall i :: 0 <= i < p.n ==>
          if i + 1 in seen then multiset(snap[i]) <= multiset(st.views[i].log) else snap[i] == [])
    && received == |Flatten(snap)|
    && sent == |SentOnly(Flatten(snap))|
    && (forall e :: e in Flatten(snap) && e.id !in duplicates && st.arrived[e.id] <= 1 ==>
          Retired(p, st, e.id))
  }

  /** `found[i]` is what replica i's search contributed; it misses nothing that was counted. */
  ghost predicate FoundOk(p: Params, seen: seq<nat>, suspects: seq<nat>, processedBy: seq<ProcessedMessage>,
                    snap: seq<seq<ProcessedMessage>>, found: seq<seq<ProcessedMessage>>)
  {
    && |snap| == |found| == p.n
    && (forall i :: 0 <= i < p.n && i + 1 !in seen ==> found[i] == [])
    && (forall i, e :: 0 <= i < p.n && i + 1 in seen && e in snap[i] && e.id in suspects ==>
          multiset(snap[i])[e] <= multiset(found[i])[e])
    && (forall i, e :: 0 <= i < p.n && e in found[i] ==> IsEntry(p, e))
    && multiset(processedBy) == multiset(Flatten(found))
  }

  ghost predicate TokenOk(p: Params, st: Stage)
    requires |st.views| == p.n
  {
    match st.token
    case None => st.feed.None? || st.verdict.Some?
    case Some(m) =>
      && st.feed.Some?
      && (m.EofFinish? <==> st.verdict.Some?)
      && match m
         case Eof(_, s, ds) => Account(s, ds) == st.feed.value
         case EofDiscovery(_, s, ds, received, sent, dups, seen) =>
           && Account(s, ds) == st.feed.value && SeenOk(p.n, seen) && |seen| < p.n
           && exists snap :: SnapOk(p, st, seen, received, sent, dups, snap)
         case EofAggregation(_, s, ds, received, sent, dups, seen, records) =>
           && Account(s, ds) == st.feed.value && SeenOk(p.n, seen) && |seen| < p.n
           && exists snap, found ::
                && SnapOk(p, st, Everyone(p.n), received, sent, dups, snap)
                && FoundOk(p, seen, dups + ds, records, snap, found)
         case EofFinish(_, seen) => SeenOk(p.n, seen) && |seen| < p.n
         case _ => false
  }

  function Everyone(n: nat): seq<nat> {
    seq(n, i => i + 1)
  }

  /** The environment has kept its word so far. */
  ghost predicate Fed(p: Params, st: Stage) {
    st.feed.Some? ==>
      && st.feed.value.sent == |p.ids|
      && forall x :: x in st.arrived && st.arrived[x] >= 2 ==> x in st.feed.value.duplicates
  }

  /** The verdict `a` tells the truth about this state. */
  ghost predicate Decided(p: Params, st: Stage, a: Account)
    requires st.feed.Some?
  {
    && a.sent == |p.emits|
    && (forall x :: x in st.feed.value.duplicates ==> x in a.duplicates)
    && (forall x :: x in p.ids ==> Logged(p, st, x) >= 1)
    && (forall x :: x in p.ids && x !in a.duplicates && st.arrived[x] <= 1 ==> Retired(p, st, x))
  }

  /** What a verdict means, then and ever after. */
  ghost predicate Settled(p: Params, st: Stage) {
    st.verdict.Some? ==> st.feed.Some? && Decided(p, st, st.verdict.value)
  }

  ghost predicate Invariant(p: Params, st: Stage) {
    Books(p, st) && Custody(p, st) && TokenOk(p, st) && Fed(p, st) && Settled(p, st)
  }
}
