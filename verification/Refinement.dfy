/**
 The abstract replica of the stage machine is what the real one does: handling a
 message, handing it back, crashing at any append, and restarting change the
 counters, the suspects, the log records, and what the log would give back, for
 every client, exactly as EofStage says. Nothing is assumed about commits.
 */
module Refinement {
  import opened Sequences
  import opened Messages
  import opened EofRing
  import opened EofStage
  import opened Logs
  import opened Recovery
  import opened RestoredCounts

  /** A stage whose messages may be processed twice does not use the catcher. */
  const PLAIN := Settings(false, false)

  /** What the EOF protocol sees of a replica. What its sender would announce is only
      read after the verdict has overwritten it, so it is left out. */
  function ViewOf<M>(r: Replica<M>, c: nat): View {
    View(Get(r.memory.state.received, c, 0), Get(r.memory.state.sent, c, 0),
         Get(r.memory.state.duplicates, c, []), [], Records(r.disk.cycles, c))
  }

  function Forget(v: View): View {
    v.(announced := [])
  }

  /** The client's part of a saved state. */
  predicate Remembers(s: State, c: nat, m: Counters) {
    m.received == Get(s.received, c, 0) && m.sent == Get(s.sent, c, 0) && m.duplicates == Get(s.duplicates, c, [])
  }

  /** The abstract replica agrees with the real one, and with what its log would give back. */
  predicate Matches<M>(r: Replica<M>, c: nat, n: Node) {
    && Remembers(r.memory.state, c, Now(n))
    && n.view.log == Records(r.disk.cycles, c)
    && Remembers(StateOr(LastCommitted(r.disk.cycles)), c, n.backup.committed)
    && Remembers(RestoredState(RestoreCycles(r.disk.cycles)), c, n.backup.restart)
  }

  /** How a crash after `at` appends looks from outside. */
  function OutcomeOf<M>(m: Incoming<M>, at: nat, published: bool, acked: bool): Outcome {
    if at < SavePoint(PLAIN, m) then CrashBeforeSave(published)
    else if at == SavePoint(PLAIN, m) then CrashAfterSave(acked)
    else Done
  }

  /** What a message does to the abstract replica: to its own client, or aside. */
  function NodeWith<M>(n: Node, c: nat, m: Incoming<M>, outcome: Outcome): Node {
    if m.client == c then NodeAfter(n, m.id, m.redelivered, m.sends, outcome) else NodeAside(n, outcome)
  }

  /** The abstract counterpart of a happening; the stage machine's callbacks send no messages. */
  function NodeStep<M>(n: Node, c: nat, h: Happening<M>): Node
    requires !h.Callback?
  {
    match h
    case Receive(m) => NodeWith(n, c, m, Done)
    case HandBack(m) => NodeWith(n, c, m, NotReady)
    case Restart => Restarted(n)
    case Crash(m, at) =>
      if at == 0 then Restarted(n)
      else
        var n' := NodeWith(n, c, m, OutcomeOf(m, at, false, false));
        if at <= SavePoint(PLAIN, m) then n' else Restarted(n')
  }

  // ---------- one more cycle in the log ----------

  lemma LastCycle(cs: seq<Cycle>, cycle: Cycle)
    ensures LastCommitted(cs + [cycle]) == if cycle.committed then cycle.save else LastCommitted(cs)
    ensures RestoreCycles(cs + [cycle])
         == if !LooksUnsaved(cycle)
            then Restored(if cycle.committed then FromCommit else FromSaveDone, cycle.id, cycle.client, cycle.save)
            else Restored(FromSent, cycle.id, cycle.client, LastCommitted(cs))
  {
    assert (cs + [cycle])[..|cs|] == cs && (cs + [cycle])[|cs|] == cycle;
  }

  function Suspected(s: State, id: nat, client: nat): State {
    s.(duplicates := s.duplicates[client := Get(s.duplicates, client, []) + [id]])
  }

  /** What the log gives back once the message has left its cycle in it. */
  lemma LogAfter<M>(cs: seq<Cycle>, m: Incoming<M>, state: State, at: nat)
    requires 0 < at
    ensures var cs' := cs + [CycleAt(PLAIN, m, state, at)];
      && StateOr(LastCommitted(cs')) == (if at > SavePoint(PLAIN, m) then state else StateOr(LastCommitted(cs)))
      && RestoredState(RestoreCycles(cs'))
         == (if at > SavePoint(PLAIN, m) then state
             else if at == SavePoint(PLAIN, m) then Suspected(state, m.id, m.client)
             else Suspected(StateOr(LastCommitted(cs)), m.id, m.client))
  {
    LastCycle(cs, CycleAt(PLAIN, m, state, at));
  }

  lemma RecordsAfter<M>(cs: seq<Cycle>, m: Incoming<M>, state: State, at: nat, c: nat)
    requires 0 < at
    ensures Records(cs + [CycleAt(PLAIN, m, state, at)], c)
         == Records(cs, c)
            + (if at >= SavePoint(PLAIN, m) && c == m.client then [ProcessedMessage(m.id, m.sends > 0)] else [])
  {
    RecordsLast(cs, CycleAt(PLAIN, m, state, at), c);
  }

  // ---------- one happening ----------

  lemma RestartMatches<M>(r: Replica<M>, c: nat, n: Node)
    requires Matches(r, c, n)
    ensures Matches(Recover(PLAIN, r.disk), c, Restarted(n))
  {
  }

  lemma SavedRemembers<M>(s: State, m: Incoming<M>, c: nat, n: Node)
    requires Remembers(s, c, Now(n))
    ensures Remembers(StateAfter(s, m), c,
                      if m.client == c then Processed(Now(n), m.id, m.redelivered, m.sends) else Now(n))
  {
  }

  lemma SuspectedRemembers(s: State, id: nat, client: nat, c: nat, m: Counters)
    requires Remembers(s, c, m)
    ensures Remembers(Suspected(s, id, client), c, if client == c then Suspecting(m, id) else m)
  {
  }

  lemma ReceivedCycles<M>(r: Replica<M>, m: Incoming<M>)
    ensures Received(PLAIN, r, m).disk.cycles
         == r.disk.cycles + [CycleAt(PLAIN, m, StateAfter(r.memory.state, m), SavePoint(PLAIN, m) + 1)]
  {
    var state, at := StateAfter(r.memory.state, m), SavePoint(PLAIN, m) + 1;
    OpsAt(PLAIN, m, state);
    assert Ops(PLAIN, m, state)[..at] == Ops(PLAIN, m, state);
    PrefixOnDisk(PLAIN, r.disk, m, state, at);
  }

  /** Handling a message is the abstract `Done`, from any state. */
  lemma ReceiveRefines<M>(r: Replica<M>, m: Incoming<M>, c: nat, n: Node)
    requires Matches(r, c, n)
    ensures Matches(Step(PLAIN, r, Receive(m)), c, NodeWith(n, c, m, Done))
  {
    var cs, state, at := r.disk.cycles, StateAfter(r.memory.state, m), SavePoint(PLAIN, m) + 1;
    ReceivedCycles(r, m);
    LogAfter(cs, m, state, at);
    RecordsAfter(cs, m, state, at, c);
    SavedRemembers(r.memory.state, m, c, n);
    hide CycleAt, LastCommitted, RestoreCycles, Records, StateAfter, Processed, Ops, ApplyAll;
  }

  /** Handing a message back is the abstract `NotReady`. */
  lemma HandBackRefines<M>(r: Replica<M>, m: Incoming<M>, c: nat, n: Node)
    requires Matches(r, c, n)
    ensures Matches(Step(PLAIN, r, HandBack(m)), c, NodeWith(n, c, m, NotReady))
  {
    var cs := r.disk.cycles;
    assert CycleAt(PLAIN, m, r.memory.state, 1) == Cycle(m.id, m.client, 0, None, false, []);
    LogAfter(cs, m, r.memory.state, 1);
    RecordsAfter(cs, m, r.memory.state, 1, c);
    SuspectedRemembers(StateOr(LastCommitted(cs)), m.id, m.client, c, n.backup.committed);
    hide CycleAt, LastCommitted, RestoreCycles, Records, Suspected, Suspecting;
  }

  /** The log after a crash, and the state that the restart goes on with. */
  lemma CrashState<M>(r: Replica<M>, m: Incoming<M>, at: nat)
    requires 0 < at <= SavePoint(PLAIN, m) + 1 && Possible(PLAIN, r, Crash(m, at))
    ensures var r' := Step(PLAIN, r, Crash(m, at));
      var cs' := r.disk.cycles + [CycleAt(PLAIN, m, StateAfter(r.memory.state, m), at)];
      r'.disk.cycles == cs' && r'.memory.state == RestoredState(RestoreCycles(cs'))
  {
    PrefixOnDisk(PLAIN, r.disk, m, StateAfter(r.memory.state, m), at);
  }

  /** A crash after any append is the abstract crash before or after the save, or a restart
      behind the finished message. */
  lemma CrashRefines<M>(r: Replica<M>, m: Incoming<M>, at: nat, c: nat, n: Node)
    requires Matches(r, c, n) && Possible(PLAIN, r, Crash(m, at))
    ensures Matches(Step(PLAIN, r, Crash(m, at)), c, NodeStep(n, c, Crash(m, at)))
  {
    var cs, state := r.disk.cycles, StateAfter(r.memory.state, m);
    OpsAt(PLAIN, m, state);
    if at == 0 {
      assert Ops(PLAIN, m, state)[..0] == [];
      RestartMatches(r, c, n);
    } else {
      CrashState(r, m, at);
      LogAfter(cs, m, state, at);
      RecordsAfter(cs, m, state, at, c);
      CrashRemembers(r.memory.state, cs, m, at, c, n);
      hide CycleAt, LastCommitted, RestoreCycles, RestoredState, Records, StateAfter, Processed, Suspected;
      hide Step, Possible;
    }
  }

  /** The restored states, as the abstract replica has them. */
  lemma CrashRemembers<M>(s: State, cs: seq<Cycle>, m: Incoming<M>, at: nat, c: nat, n: Node)
    requires Remembers(s, c, Now(n)) && Remembers(StateOr(LastCommitted(cs)), c, n.backup.committed)
    requires 0 < at
    ensures var n' := NodeStep(n, c, Crash(m, at));
      && Remembers(if at > SavePoint(PLAIN, m) then StateAfter(s, m)
                   else if at == SavePoint(PLAIN, m) then Suspected(StateAfter(s, m), m.id, m.client)
                   else Suspected(StateOr(LastCommitted(cs)), m.id, m.client), c, Now(n'))
      && n'.backup.restart == Now(n')
      && Remembers(if at > SavePoint(PLAIN, m) then StateAfter(s, m) else StateOr(LastCommitted(cs)),
                   c, n'.backup.committed)
      && n'.view.log == n.view.log
         + (if at >= SavePoint(PLAIN, m) && c == m.client then [ProcessedMessage(m.id, m.sends > 0)] else [])
  {
    hide LastCommitted;
    SavedRemembers(s, m, c, n);
    SuspectedRemembers(StateOr(LastCommitted(cs)), m.id, m.client, c, n.backup.committed);
    var done := if m.client == c then Processed(Now(n), m.id, m.redelivered, m.sends) else Now(n);
    SuspectedRemembers(StateAfter(s, m), m.id, m.client, c, done);
    hide StateAfter, Suspected;
  }

  /** Every step of the real replica is the abstract step, for every client. */
  lemma StepRefines<M>(r: Replica<M>, h: Happening<M>, c: nat, n: Node)
    requires Matches(r, c, n) && Possible(PLAIN, r, h) && !h.Callback?
    ensures Matches(Step(PLAIN, r, h), c, NodeStep(n, c, h))
  {
    match h
    case Receive(m) => ReceiveRefines(r, m, c, n);
    case HandBack(m) => HandBackRefines(r, m, c, n);
    case Crash(m, at) => CrashRefines(r, m, at, c, n);
    case Restart => RestartMatches(r, c, n);
  }

  lemma EmptyMatches<M>(c: nat)
    ensures var r: Replica<M> := Replica(Disk([], map[], map[]), Memory(EMPTY_STATE, map[], map[]));
      Matches(r, c, Node(View(0, 0, [], [], []), Backup([], NOTHING, NOTHING)))
  {
  }
}
