/**
 One replica with its three logs and its memory: the durable appends of one message
 in order, a crash between any two of them, and what a restart rebuilds
 (commons/communication.py, log_storer.py, logger.py, restorer.py, connection.py).
 `M` is the type of the parsed rows in a message.
 */
module Recovery {
  import opened Sequences
  import opened Decimals
  import opened Logs

  /** A line of the connection log. */
  datatype Record<M> = Record(id: nat, batch: seq<M>)

  /** The files: communication log (as cycles), connection and catcher log of each client. */
  datatype Disk<M> = Disk(cycles: seq<Cycle>, connections: map<nat, seq<Record<M>>>, caught: map<nat, seq<nat>>)

  /** One atomic append. */
  datatype Op<M> =
    | StartOp(id: nat, client: nat)
    | SentOp(message: Subject)
    | ConnectionOp(client: nat, record: Record<M>)
    | CatcherOp(client: nat, id: nat)
    | SaveOp(state: State)
    | CommitOp

  /** `applied` is the order in which the processors in memory have seen the records. */
  datatype Memory<M> = Memory(state: State, caught: map<nat, set<nat>>, applied: map<nat, seq<Record<M>>>)

  datatype Replica<M> = Replica(disk: Disk<M>, memory: Memory<M>)

  /** use_duplicate_catcher and has_statefull_processor */
  datatype Settings = Settings(catcher: bool, stateful: bool)

  /** A delivered message; `sends` is the number of messages its processing sends. */
  datatype Incoming<M> = Incoming(id: nat, client: nat, batch: seq<M>, redelivered: bool, sends: nat)

  function Get<V>(m: map<nat, V>, k: nat, default: V): V {
    if k in m then m[k] else default
  }

  const EMPTY_STATE := State(map[], map[], map[])

  // ---------- writing ----------

  /** A SENT line of the message itself, or a late one. */
  function WithSent(c: Cycle, message: Subject): Cycle {
    if c.save.None? && c.late == [] && message == Some((c.id, c.client)) then c.(sents := c.sents + 1)
    else c.(late := c.late + [message])
  }

  function Apply<M>(d: Disk<M>, op: Op<M>): Disk<M> {
    var n := |d.cycles|;
    match op
    case StartOp(id, c) => d.(cycles := d.cycles + [Cycle(id, c, 0, None, false, [])])
    case SentOp(message) =>  // before the first message of all it is read by nobody
      if n == 0 then d else d.(cycles := d.cycles[n - 1 := WithSent(d.cycles[n - 1], message)])
    case ConnectionOp(c, r) => d.(connections := d.connections[c := Get(d.connections, c, []) + [r]])
    case CatcherOp(c, id) => d.(caught := d.caught[c := Get(d.caught, c, []) + [id]])
    case SaveOp(s) => if n == 0 then d else d.(cycles := d.cycles[n - 1 := d.cycles[n - 1].(save := Some(s))])
    case CommitOp => if n == 0 then d else d.(cycles := d.cycles[n - 1 := d.cycles[n - 1].(committed := true)])
  }

  function ApplyAll<M>(d: Disk<M>, ops: seq<Op<M>>): Disk<M> {
    if ops == [] then d else Apply(ApplyAll(d, ops[..|ops| - 1]), ops[|ops| - 1])
  }

  /** send_all logs SENT for every message, and Connection.process once more at the end. */
  function SentLines(sends: nat): nat {
    if sends == 0 then 0 else sends + 1
  }

  /** The counters and suspects after the message has been processed. */
  function StateAfter<M>(s: State, m: Incoming<M>): State {
    State(s.received[m.client := Get(s.received, m.client, 0) + 1],
          if m.sends == 0 then s.sent else s.sent[m.client := Get(s.sent, m.client, 0) + m.sends],
          if m.redelivered then s.duplicates[m.client := Get(s.duplicates, m.client, []) + [m.id]] else s.duplicates)
  }

  /** A stateful processor's rows are kept; a message without rows leaves no record. */
  predicate Keeps<M>(settings: Settings, m: Incoming<M>) {
    settings.stateful && |m.batch| > 0
  }

  /** Everything one message appends, in order; the broker's ACK is between the last two. */
  function Ops<M>(settings: Settings, m: Incoming<M>, state: State): seq<Op<M>> {
    [StartOp(m.id, m.client)] + seq(SentLines(m.sends), _ => SentOp(Some((m.id, m.client))))
    + (if Keeps(settings, m) then [ConnectionOp(m.client, Record(m.id, m.batch))] else [])
    + (if settings.catcher then [CatcherOp(m.client, m.id)] else [])
    + [SaveOp(state), CommitOp]
  }

  // ---------- restarting ----------

  /** `line.startswith(str(id))` on the last line decides whether it is dropped. */
  function UndoRecords<M>(rs: seq<Record<M>>, id: nat): seq<Record<M>> {
    if rs != [] && Decimal(id) <= Decimal(rs[|rs| - 1].id) then rs[..|rs| - 1] else rs
  }

  function UndoIds(ids: seq<nat>, id: nat): seq<nat> {
    if ids != [] && Decimal(id) <= Decimal(ids[|ids| - 1]) then ids[..|ids| - 1] else ids
  }

  function Undo<M>(d: Disk<M>, id: nat, client: nat): Disk<M> {
    d.(connections := if client in d.connections then d.connections[client := UndoRecords(d.connections[client], id)]
                      else d.connections,
       caught := if client in d.caught then d.caught[client := UndoIds(d.caught[client], id)] else d.caught)
  }

  /** Restorer.restore: the interrupted id becomes a suspect. */
  function RestoredState(r: Restored): State {
    var base := if r.Restored? && r.state.Some? then r.state.value else EMPTY_STATE;
    if r.Restored? && r.kind != FromCommit then
      base.(duplicates := base.duplicates[r.client := Get(base.duplicates, r.client, []) + [r.id]])
    else base
  }

  function Elements(ids: seq<nat>): set<nat> {
    set x | x in ids
  }

  function Recover<M>(settings: Settings, d: Disk<M>): Replica<M> {
    var r := RestoreCycles(d.cycles);
    var d' := if r.Restored? && r.kind == FromSent then Undo(d, r.id, r.client) else d;
    Replica(d', Memory(RestoredState(r),
                       if settings.catcher then map c | c in d'.caught :: Elements(d'.caught[c]) else map[],
                       if settings.stateful then map c | c in d'.connections :: Reverse(d'.connections[c]) else map[]))
  }

  // ---------- the machine ----------

  datatype Happening<M> =
    | Receive(m: Incoming<M>)
    | HandBack(m: Incoming<M>)          // started, not processed, and handed back to the broker
    | Callback(client: nat, message: Subject)    // an EOF callback sends a message
    | Crash(m: Incoming<M>, at: nat)    // after the first `at` appends of m
    | Restart

  predicate Dropped<M>(settings: Settings, r: Replica<M>, m: Incoming<M>) {
    settings.catcher && m.id in Get(r.memory.caught, m.client, {})
  }

  function Received<M>(settings: Settings, r: Replica<M>, m: Incoming<M>): Replica<M> {
    var state := StateAfter(r.memory.state, m);
    Replica(ApplyAll(r.disk, Ops(settings, m, state)),
            Memory(state,
                   if settings.catcher then r.memory.caught[m.client := Get(r.memory.caught, m.client, {}) + {m.id}]
                   else r.memory.caught,
                   if Keeps(settings, m) then
                     r.memory.applied[m.client := Get(r.memory.applied, m.client, []) + [Record(m.id, m.batch)]]
                   else r.memory.applied))
  }

  /** A message that is not ready leaves its START line, its suspicion when it is redelivered,
      and its id in the catcher. */
  function Started<M>(settings: Settings, r: Replica<M>, m: Incoming<M>): Replica<M> {
    Replica(Apply(r.disk, StartOp(m.id, m.client)),
            Memory(r.memory.state.(duplicates := StateAfter(r.memory.state, m).duplicates),
                   if settings.catcher then r.memory.caught[m.client := Get(r.memory.caught, m.client, {}) + {m.id}]
                   else r.memory.caught,
                   r.memory.applied))
  }

  /** The EOF callback's message is counted, and logged with what the storer is at. */
  function CalledBack<M>(r: Replica<M>, client: nat, message: Subject): Replica<M> {
    var s := r.memory.state;
    Replica(Apply(r.disk, SentOp(message)),
            r.memory.(state := s.(sent := s.sent[client := Get(s.sent, client, 0) + 1])))
  }

  predicate Possible<M>(settings: Settings, r: Replica<M>, h: Happening<M>) {
    h.Crash? ==> h.at <= |Ops(settings, h.m, StateAfter(r.memory.state, h.m))| && !Dropped(settings, r, h.m)
  }

  function Step<M>(settings: Settings, r: Replica<M>, h: Happening<M>): Replica<M>
    requires Possible(settings, r, h)
  {
    match h
    case Receive(m) => if Dropped(settings, r, m) then r else Received(settings, r, m)
    case HandBack(m) => if Dropped(settings, r, m) then r else Started(settings, r, m)
    case Callback(client, message) => CalledBack(r, client, message)
    case Crash(m, at) => Recover(settings, ApplyAll(r.disk, Ops(settings, m, StateAfter(r.memory.state, m))[..at]))
    case Restart => Recover(settings, r.disk)
  }

  ghost predicate PossibleRun<M>(settings: Settings, r: Replica<M>, hs: seq<Happening<M>>)
    decreases |hs|
  {
    hs == [] || (Possible(settings, r, hs[0]) && PossibleRun(settings, Step(settings, r, hs[0]), hs[1..]))
  }

  // ---------- what a prefix of the appends leaves on disk ----------

  function SavePoint<M>(settings: Settings, m: Incoming<M>): nat {
    SentLines(m.sends) + (if Keeps(settings, m) then 1 else 0) + (if settings.catcher then 1 else 0) + 2
  }

  function CycleAt<M>(settings: Settings, m: Incoming<M>, state: State, at: nat): Cycle {
    Cycle(m.id, m.client,
          if at <= SentLines(m.sends) && at > 0 then at - 1 else SentLines(m.sends),
          if at >= SavePoint(settings, m) then Some(state) else None,
          at > SavePoint(settings, m), [])
  }

  predicate RecordAt<M>(settings: Settings, m: Incoming<M>, at: nat) {
    Keeps(settings, m) && at >= SentLines(m.sends) + 2
  }

  predicate CatcherAt<M>(settings: Settings, m: Incoming<M>, at: nat) {
    settings.catcher && at >= SavePoint(settings, m) - 1
  }

  function DiskAt<M>(settings: Settings, d: Disk<M>, m: Incoming<M>, state: State, at: nat): Disk<M> {
    if at == 0 then d
    else Disk(d.cycles + [CycleAt(settings, m, state, at)],
              if RecordAt(settings, m, at) then
                d.connections[m.client := Get(d.connections, m.client, []) + [Record(m.id, m.batch)]]
              else d.connections,
              if CatcherAt(settings, m, at) then d.caught[m.client := Get(d.caught, m.client, []) + [m.id]]
              else d.caught)
  }

  lemma OpsAt<M>(settings: Settings, m: Incoming<M>, state: State)
    ensures var ops, s := Ops(settings, m, state), SentLines(m.sends);
      && |ops| == SavePoint(settings, m) + 1
      && ops[0] == StartOp(m.id, m.client)
      && (forall k :: 0 < k <= s ==> ops[k] == SentOp(Some((m.id, m.client))))
      && (Keeps(settings, m) ==> ops[s + 1] == ConnectionOp(m.client, Record(m.id, m.batch)))
      && (settings.catcher ==> ops[|ops| - 3] == CatcherOp(m.client, m.id))
      && ops[|ops| - 2] == SaveOp(state)
      && ops[|ops| - 1] == CommitOp
  {
  }

  lemma {:induction false} PrefixOnDisk<M>(settings: Settings, d: Disk<M>, m: Incoming<M>, state: State, at: nat)
    requires at <= |Ops(settings, m, state)|
    ensures ApplyAll(d, Ops(settings, m, state)[..at]) == DiskAt(settings, d, m, state, at)
  {
    var ops := Ops(settings, m, state);
    if at > 0 {
      PrefixOnDisk(settings, d, m, state, at - 1);
      assert ops[..at][..at - 1] == ops[..at - 1] && ops[..at][at - 1] == ops[at - 1];
      OpsAt(settings, m, state);
      LastOp(settings, d, m, state, at);
    }
  }

  lemma LastOp<M>(settings: Settings, d: Disk<M>, m: Incoming<M>, state: State, at: nat)
    requires 0 < at <= |Ops(settings, m, state)|
    ensures Apply(DiskAt(settings, d, m, state, at - 1), Ops(settings, m, state)[at - 1])
         == DiskAt(settings, d, m, state, at)
  {
    OpsAt(settings, m, state);
    var before := DiskAt(settings, d, m, state, at - 1);
    if at > 1 {
      assert forall c: Cycle :: before.cycles[|before.cycles| - 1 := c] == d.cycles + [c];
    }
  }
}
