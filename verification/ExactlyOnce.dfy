/**
 Exactly-once state across crashes, for a replica with the duplicate catcher, with or
 without a stateful processor: whatever the crash points, the logs agree and every
 message is applied once, in exactly the runs that the undo at a restart does not spoil.
 */
module ExactlyOnce {
  import opened Sequences
  import opened Decimals
  import opened Logs
  import opened Recovery

  function Connection<M>(d: Disk<M>, c: nat): seq<Record<M>> { Get(d.connections, c, []) }

  function Caught<M>(d: Disk<M>, c: nat): seq<nat> { Get(d.caught, c, []) }

  function Ids<M>(rs: seq<Record<M>>): (ids: seq<nat>)
    ensures |ids| == |rs|
  {
    seq(|rs|, i requires 0 <= i < |rs| => rs[i].id)
  }

  /** The ids of the client's SAVE DONE lines, oldest first. */
  function SavedIds(cs: seq<Cycle>, c: nat): seq<nat> {
    seq(|Records(cs, c)|, i requires 0 <= i < |Records(cs, c)| => Records(cs, c)[i].id)
  }

  /** The logs of client c hold the same messages in the same order, each once; the
      connection log is kept for a stateful processor only. */
  predicate LogsAgree<M>(settings: Settings, d: Disk<M>, c: nat) {
    && Caught(d, c) == SavedIds(d.cycles, c)
    && Distinct(SavedIds(d.cycles, c))
    && (settings.stateful ==> Ids(Connection(d, c)) == SavedIds(d.cycles, c))
  }

  /** Memory follows the logs: the catcher knows the saved ids, and a stateful processor
      has seen every saved batch once, in some order. */
  ghost predicate MemoryAgrees<M>(settings: Settings, r: Replica<M>, c: nat) {
    && Get(r.memory.caught, c, {}) == Elements(Caught(r.disk, c))
    && (settings.stateful ==> multiset(Get(r.memory.applied, c, [])) == multiset(Connection(r.disk, c)))
  }

  ghost predicate Consistent<M(!new)>(settings: Settings, r: Replica<M>) {
    && ValidCycles(r.disk.cycles)
    && forall c :: LogsAgree(settings, r.disk, c) && MemoryAgrees(settings, r, c)
  }

  /** The id of an interrupted message does not begin the numeral of the last saved one. */
  predicate PrefixSafe(ids: seq<nat>, id: nat) {
    ids == [] || !(Decimal(id) <= Decimal(ids[|ids| - 1]))
  }

  /** A restart takes the last message for unsaved and its id for one that may be undone. */
  predicate SafeToRestart<M>(d: Disk<M>) {
    d.cycles != [] ==>
      var last := d.cycles[|d.cycles| - 1];
      LooksUnsaved(last) ==> PrefixSafe(SavedIds(d.cycles, last.client), last.id)
  }

  /** A message without rows leaves no record for a stateful processor. */
  predicate Recorded<M>(settings: Settings, m: Incoming<M>) {
    settings.stateful ==> |m.batch| > 0
  }

  /** Checked before the step: what a message appends is complete; a message that is not
      ready is a duplicate, as the catcher would discard it when it returns; and as the undo
      compares ids with startswith, the id that a restart takes back is no decimal prefix of
      the last saved one, unless the interrupted message had appended all of its lines. */
  predicate Harmless<M>(settings: Settings, r: Replica<M>, h: Happening<M>) {
    match h
    case Receive(m) => Dropped(settings, r, m) || Recorded(settings, m)
    case HandBack(m) => Dropped(settings, r, m)
    case Callback(_, _) => true
    case Crash(m, at) =>
      if at == 0 then SafeToRestart(r.disk)
      else if at >= SavePoint(settings, m) then Recorded(settings, m)
      else PrefixSafe(SavedIds(r.disk.cycles, m.client), m.id) || (CatcherAt(settings, m, at) && Recorded(settings, m))
    case Restart => SafeToRestart(r.disk)
  }

  lemma SavedIdsLast(cs: seq<Cycle>, cycle: Cycle, c: nat)
    ensures SavedIds(cs + [cycle], c)
         == SavedIds(cs, c) + (if cycle.save.Some? && cycle.client == c then [cycle.id] else [])
  {
    RecordsLast(cs, cycle, c);
  }

  // ---------- the undo ----------

  /** A restart rebuilds from the logs a memory that agrees with them. */
  lemma RecoverMemory<M>(settings: Settings, d: Disk<M>, c: nat)
    requires settings.catcher
    ensures MemoryAgrees(settings, Recover(settings, d), c)
  {
    var r := Recover(settings, d);
    ReverseMultiset(Connection(r.disk, c));
  }

  /** The undo, client by client; a client without files has nothing to undo. */
  lemma UndoLogs<M>(d: Disk<M>, id: nat, client: nat, c: nat)
    ensures Undo(d, id, client).cycles == d.cycles
    ensures Ids(Connection(Undo(d, id, client), c))
         == if c == client then UndoIds(Ids(Connection(d, c)), id) else Ids(Connection(d, c))
    ensures Caught(Undo(d, id, client), c) == if c == client then UndoIds(Caught(d, c), id) else Caught(d, c)
  {
    if c == client {
      var rs := Connection(d, c);
      assert rs != [] ==> Ids(rs)[..|rs| - 1] == Ids(rs[..|rs| - 1]);
    }
  }

  /** The undo leaves a log as it is if and only if the id begins no numeral of its last line. */
  lemma UndoNothing(ids: seq<nat>, id: nat)
    ensures UndoIds(ids, id) == ids <==> PrefixSafe(ids, id)
  {
    if !PrefixSafe(ids, id) {
      assert |UndoIds(ids, id)| == |ids| - 1;
    }
  }

  /** The message's own line is always taken back. */
  lemma UndoLast(ids: seq<nat>, id: nat)
    ensures UndoIds(ids + [id], id) == ids
  {
  }

  // ---------- restarts ----------

  /** Logs that agree still agree after the undo if and only if it does nothing. */
  lemma UndoAgreesExactly<M>(settings: Settings, d: Disk<M>, id: nat, client: nat)
    requires forall c :: LogsAgree(settings, d, c)
    ensures (forall c :: LogsAgree(settings, Undo(d, id, client), c)) <==> PrefixSafe(SavedIds(d.cycles, client), id)
  {
    var d' := Undo(d, id, client);
    UndoNothing(SavedIds(d.cycles, client), id);
    assert LogsAgree(settings, d, client);
    forall c
      ensures LogsAgree(settings, d', c) <==> c != client || PrefixSafe(SavedIds(d.cycles, client), id)
    {
      assert LogsAgree(settings, d, c);
      UndoLogs(d, id, client, c);
    }
    hide LogsAgree, PrefixSafe, Undo;
    assert LogsAgree(settings, d', client) <==> PrefixSafe(SavedIds(d.cycles, client), id);
  }

  /** A restart keeps the agreement if and only if the log does not end in an unsaved
      message whose id begins the numeral of the last saved one. The undo runs again at
      every restart that finds the same last line. */
  lemma RestartAgreesExactly<M(!new)>(settings: Settings, r: Replica<M>)
    requires settings.catcher && Consistent(settings, r)
    ensures Consistent(settings, Recover(settings, r.disk)) <==> SafeToRestart(r.disk)
  {
    var cs, r' := r.disk.cycles, Recover(settings, r.disk);
    forall c
      ensures MemoryAgrees(settings, r', c)
    {
      RecoverMemory(settings, r.disk, c);
    }
    assert forall c :: LogsAgree(settings, r.disk, c);
    hide MemoryAgrees, LogsAgree, PrefixSafe, Undo;
    if cs != [] && LooksUnsaved(cs[|cs| - 1]) {
      UndoAgreesExactly(settings, r.disk, cs[|cs| - 1].id, cs[|cs| - 1].client);
    }
  }

  // ---------- a message ----------

  /** The logs of each client after the first `at` appends. */
  lemma LogsAt<M>(settings: Settings, d: Disk<M>, m: Incoming<M>, state: State, at: nat, c: nat)
    requires at > 0
    ensures var d' := DiskAt(settings, d, m, state, at);
      && Connection(d', c)
         == Connection(d, c) + (if RecordAt(settings, m, at) && c == m.client then [Record(m.id, m.batch)] else [])
      && Ids(Connection(d', c))
         == Ids(Connection(d, c)) + (if RecordAt(settings, m, at) && c == m.client then [m.id] else [])
      && Caught(d', c) == Caught(d, c) + (if CatcherAt(settings, m, at) && c == m.client then [m.id] else [])
      && SavedIds(d'.cycles, c)
         == SavedIds(d.cycles, c) + (if at >= SavePoint(settings, m) && c == m.client then [m.id] else [])
  {
    SavedIdsLast(d.cycles, CycleAt(settings, m, state, at), c);
  }

  /** Once the save is on disk, the logs agree on one more message if and only if it left
      its record. */
  lemma SavedAgrees<M>(settings: Settings, d: Disk<M>, m: Incoming<M>, state: State, at: nat, c: nat)
    requires settings.catcher && LogsAgree(settings, d, c) && m.id !in SavedIds(d.cycles, m.client)
    requires at >= SavePoint(settings, m)
    ensures LogsAgree(settings, DiskAt(settings, d, m, state, at), c) <==> c != m.client || Recorded(settings, m)
  {
    LogsAt(settings, d, m, state, at, c);
    hide DiskAt;
    if c == m.client && !Recorded(settings, m) {
      assert |SavedIds(DiskAt(settings, d, m, state, at).cycles, c)| == |SavedIds(d.cycles, c)| + 1;
    }
  }

  /** Before that, the undo gives back logs that agree if and only if it takes back exactly
      what was appended. */
  lemma UnsavedAgrees<M>(settings: Settings, d: Disk<M>, m: Incoming<M>, state: State, at: nat, c: nat)
    requires settings.catcher && LogsAgree(settings, d, c) && 0 < at < SavePoint(settings, m)
    ensures LogsAgree(settings, Undo(DiskAt(settings, d, m, state, at), m.id, m.client), c)
       <==> c != m.client || PrefixSafe(SavedIds(d.cycles, m.client), m.id)
            || (CatcherAt(settings, m, at) && Recorded(settings, m))
  {
    hide DiskAt, Undo, UndoIds, PrefixSafe, SavedIds, Connection, Caught, SentLines;
    NoTail(SavedIds(d.cycles, c));
    LogsAt(settings, d, m, state, at, c);
    UndoLogs(DiskAt(settings, d, m, state, at), m.id, m.client, c);
    UndoNothing(SavedIds(d.cycles, c), m.id);
    UndoLast(SavedIds(d.cycles, c), m.id);
    assert CatcherAt(settings, m, at) ==> (RecordAt(settings, m, at) <==> Keeps(settings, m));
    hide SavePoint, CatcherAt, RecordAt, Distinct;
  }

  /** The whole cycle of a message on disk. */
  lemma ReceivedDisk<M>(settings: Settings, r: Replica<M>, m: Incoming<M>)
    ensures Received(settings, r, m).disk
         == DiskAt(settings, r.disk, m, StateAfter(r.memory.state, m), SavePoint(settings, m) + 1)
  {
    var ops := Ops(settings, m, StateAfter(r.memory.state, m));
    OpsAt(settings, m, StateAfter(r.memory.state, m));
    assert ops[..|ops|] == ops;
    PrefixOnDisk(settings, r.disk, m, StateAfter(r.memory.state, m), |ops|);
  }

  lemma ReceivedMemory<M>(settings: Settings, r: Replica<M>, m: Incoming<M>, c: nat)
    requires settings.catcher && MemoryAgrees(settings, r, c)
    ensures MemoryAgrees(settings, Received(settings, r, m), c)
  {
    var r' := Received(settings, r, m);
    assert Get(r'.memory.caught, c, {}) == Get(r.memory.caught, c, {}) + (if c == m.client then {m.id} else {});
    assert Get(r'.memory.applied, c, [])
        == Get(r.memory.applied, c, [])
           + (if Keeps(settings, m) && c == m.client then [Record(m.id, m.batch)] else []);
    ReceivedDisk(settings, r, m);
    LogsAt(settings, r.disk, m, StateAfter(r.memory.state, m), SavePoint(settings, m) + 1, c);
    hide DiskAt, ApplyAll, Ops, Received, StateAfter, Get;
  }

  lemma NotSavedYet<M(!new)>(settings: Settings, r: Replica<M>, m: Incoming<M>)
    requires settings.catcher && Consistent(settings, r) && !Dropped(settings, r, m)
    ensures m.id !in SavedIds(r.disk.cycles, m.client)
  {
    assert LogsAgree(settings, r.disk, m.client) && MemoryAgrees(settings, r, m.client);
  }

  /** Handling a new message keeps the agreement if and only if it leaves its record. */
  lemma ReceiveAgreesExactly<M(!new)>(settings: Settings, r: Replica<M>, m: Incoming<M>)
    requires settings.catcher && Consistent(settings, r) && !Dropped(settings, r, m)
    ensures Consistent(settings, Received(settings, r, m)) <==> Recorded(settings, m)
  {
    var state, at := StateAfter(r.memory.state, m), SavePoint(settings, m) + 1;
    var r' := Received(settings, r, m);
    ReceivedDisk(settings, r, m);
    NotSavedYet(settings, r, m);
    forall c
      ensures MemoryAgrees(settings, r', c)
      ensures LogsAgree(settings, r'.disk, c) <==> c != m.client || Recorded(settings, m)
    {
      assert LogsAgree(settings, r.disk, c) && MemoryAgrees(settings, r, c);
      hide LogsAgree, MemoryAgrees, Received, DiskAt, Recorded;
      SavedAgrees(settings, r.disk, m, state, at, c);
      ReceivedMemory(settings, r, m, c);
    }
    assert ValidCycles(r'.disk.cycles);
    hide LogsAgree, MemoryAgrees, Received, Recorded, ValidCycles;
    assert LogsAgree(settings, r'.disk, m.client) <==> Recorded(settings, m);
  }

  /** Handing a message back keeps the agreement if and only if it was a duplicate anyway;
      otherwise the catcher refuses the message when it returns, and it is lost. */
  lemma HandBackAgreesExactly<M(!new)>(settings: Settings, r: Replica<M>, m: Incoming<M>)
    requires settings.catcher && Consistent(settings, r)
    ensures Consistent(settings, Step(settings, r, HandBack(m))) <==> Dropped(settings, r, m)
    ensures Dropped(settings, Step(settings, r, HandBack(m)), m)
  {
    if !Dropped(settings, r, m) {
      var r' := Step(settings, r, HandBack(m));
      assert MemoryAgrees(settings, r, m.client);
      assert m.id in Get(r'.memory.caught, m.client, {}) && m.id !in Elements(Caught(r'.disk, m.client));
      assert !MemoryAgrees(settings, r', m.client);
    }
  }

  /** A crash between the appends keeps the agreement if and only if the message had left
      all of its lines, or had not been saved and its id does not begin the numeral of the
      last saved one. */
  lemma CrashAgreesExactly<M(!new)>(settings: Settings, r: Replica<M>, m: Incoming<M>, at: nat)
    requires settings.catcher && Consistent(settings, r) && Possible(settings, r, Crash(m, at)) && at > 0
    ensures Consistent(settings, Step(settings, r, Crash(m, at)))
       <==> if at >= SavePoint(settings, m) then Recorded(settings, m)
            else PrefixSafe(SavedIds(r.disk.cycles, m.client), m.id)
                 || (CatcherAt(settings, m, at) && Recorded(settings, m))
  {
    var state := StateAfter(r.memory.state, m);
    var r' := Recover(settings, DiskAt(settings, r.disk, m, state, at));
    PrefixOnDisk(settings, r.disk, m, state, at);
    assert Step(settings, r, Crash(m, at)) == r';
    CrashedDisk(settings, r.disk, m, state, at);
    NotSavedYet(settings, r, m);
    var kept := if at >= SavePoint(settings, m) then Recorded(settings, m)
                else PrefixSafe(SavedIds(r.disk.cycles, m.client), m.id)
                     || (CatcherAt(settings, m, at) && Recorded(settings, m));
    hide Step, Possible, Recover, DiskAt, ValidCycles, MemoryAgrees, LogsAgree, PrefixSafe, CatcherAt, Recorded;
    forall c
      ensures MemoryAgrees(settings, r', c)
      ensures LogsAgree(settings, r'.disk, c) <==> c != m.client || kept
    {
      assert LogsAgree(settings, r.disk, c);
      CrashedClient(settings, r.disk, m, state, at, c);
    }
    assert LogsAgree(settings, r'.disk, m.client) <==> kept;
  }

  lemma CrashedClient<M>(settings: Settings, d: Disk<M>, m: Incoming<M>, state: State, at: nat, c: nat)
    requires settings.catcher && ValidCycles(d.cycles) && LogsAgree(settings, d, c) && at > 0
    requires m.id !in SavedIds(d.cycles, m.client)
    ensures var r' := Recover(settings, DiskAt(settings, d, m, state, at));
      && MemoryAgrees(settings, r', c)
      && (LogsAgree(settings, r'.disk, c)
          <==> c != m.client || if at >= SavePoint(settings, m) then Recorded(settings, m)
               else PrefixSafe(SavedIds(d.cycles, m.client), m.id)
                    || (CatcherAt(settings, m, at) && Recorded(settings, m)))
  {
    CrashedDisk(settings, d, m, state, at);
    RecoverMemory(settings, DiskAt(settings, d, m, state, at), c);
    hide LogsAgree, MemoryAgrees, Recover, DiskAt, Recorded, Undo, PrefixSafe, CatcherAt, SavePoint;
    if at >= SavePoint(settings, m) {
      SavedAgrees(settings, d, m, state, at, c);
    } else {
      UnsavedAgrees(settings, d, m, state, at, c);
    }
  }

  lemma CrashedDisk<M>(settings: Settings, d: Disk<M>, m: Incoming<M>, state: State, at: nat)
    requires at > 0 && ValidCycles(d.cycles)
    ensures var d' := DiskAt(settings, d, m, state, at);
      && ValidCycles(d'.cycles) && Recover(settings, d').disk.cycles == d'.cycles
      && Recover(settings, d').disk == if at >= SavePoint(settings, m) then d' else Undo(d', m.id, m.client)
  {
  }

  /** An EOF callback that sends a message touches no file but the communication log. */
  lemma CallbackAgrees<M(!new)>(settings: Settings, r: Replica<M>, client: nat, message: Subject)
    requires Consistent(settings, r)
    ensures Consistent(settings, Step(settings, r, Callback(client, message)))
  {
    var cs, r' := r.disk.cycles, Step(settings, r, Callback(client, message));
    hide LogsAgree, MemoryAgrees, WithSent;
    if cs != [] {
      LateSentKeeps(cs, message, 0);
    }
    forall c
      ensures LogsAgree(settings, r'.disk, c) && MemoryAgrees(settings, r', c)
    {
      CallbackClient(settings, r, client, message, c);
    }
  }

  lemma CallbackClient<M>(settings: Settings, r: Replica<M>, client: nat, message: Subject, c: nat)
    requires LogsAgree(settings, r.disk, c) && MemoryAgrees(settings, r, c)
    ensures var r' := CalledBack(r, client, message);
      LogsAgree(settings, r'.disk, c) && MemoryAgrees(settings, r', c)
  {
    hide SavedIds, WithSent;
    if r.disk.cycles != [] {
      LateSentKeeps(r.disk.cycles, message, c);
    }
  }

  lemma LateSentKeeps(cs: seq<Cycle>, message: Subject, c: nat)
    requires cs != []
    ensures var cs' := cs[|cs| - 1 := WithSent(cs[|cs| - 1], message)];
      SavedIds(cs', c) == SavedIds(cs, c) && (ValidCycles(cs) ==> ValidCycles(cs'))
  {
    var front, last := cs[..|cs| - 1], cs[|cs| - 1];
    assert cs == front + [last] && cs[|cs| - 1 := WithSent(last, message)] == front + [WithSent(last, message)];
    SavedIdsLast(front, last, c);
    SavedIdsLast(front, WithSent(last, message), c);
  }

  // ---------- every step and every run ----------

  /** Each step keeps logs and memory in agreement if and only if it is harmless. */
  lemma StepAgreesExactly<M(!new)>(settings: Settings, r: Replica<M>, h: Happening<M>)
    requires settings.catcher && Consistent(settings, r) && Possible(settings, r, h)
    ensures Consistent(settings, Step(settings, r, h)) <==> Harmless(settings, r, h)
  {
    hide Consistent;
    match h
    case Receive(m) =>
      if !Dropped(settings, r, m) {
        ReceiveAgreesExactly(settings, r, m);
      }
    case HandBack(m) => HandBackAgreesExactly(settings, r, m);
    case Callback(client, message) => CallbackAgrees(settings, r, client, message);
    case Crash(m, at) =>
      if at == 0 {
        assert Ops(settings, m, StateAfter(r.memory.state, m))[..0] == [];
        RestartAgreesExactly(settings, r);
      } else {
        CrashAgreesExactly(settings, r, m, at);
      }
    case Restart => RestartAgreesExactly(settings, r);
  }

  ghost predicate HarmlessRun<M(!new)>(settings: Settings, r: Replica<M>, hs: seq<Happening<M>>)
    decreases |hs|
  {
    hs == [] || (&& Possible(settings, r, hs[0]) && Harmless(settings, r, hs[0])
                 && HarmlessRun(settings, Step(settings, r, hs[0]), hs[1..]))
  }

  /** Logs and memory agree in every state of the run. */
  ghost predicate AlwaysConsistent<M(!new)>(settings: Settings, r: Replica<M>, hs: seq<Happening<M>>)
    decreases |hs|
  {
    Consistent(settings, r)
    && (hs == [] || (Possible(settings, r, hs[0]) && AlwaysConsistent(settings, Step(settings, r, hs[0]), hs[1..])))
  }

  /** Whatever happens in a run that can happen at all: logs and memory agree all the way
      if and only if every step is harmless when it comes. */
  lemma {:induction false} RunAgreesExactly<M(!new)>(settings: Settings, r: Replica<M>, hs: seq<Happening<M>>)
    requires settings.catcher && Consistent(settings, r) && PossibleRun(settings, r, hs)
    ensures AlwaysConsistent(settings, r, hs) <==> HarmlessRun(settings, r, hs)
    decreases |hs|
  {
    hide Consistent, Harmless, Step, Possible;
    if hs != [] {
      var next := Step(settings, r, hs[0]);
      StepAgreesExactly(settings, r, hs[0]);
      if Consistent(settings, next) {
        RunAgreesExactly(settings, next, hs[1..]);
      } else {
        assert !AlwaysConsistent(settings, next, hs[1..]);
      }
    }
  }

  ghost function Run<M(!new)>(settings: Settings, r: Replica<M>, hs: seq<Happening<M>>): Replica<M>
    requires HarmlessRun(settings, r, hs)
    decreases |hs|
  {
    if hs == [] then r else Run(settings, Step(settings, r, hs[0]), hs[1..])
  }

  function Fresh<M>(): Replica<M> {
    Replica(Disk([], map[], map[]), Memory(EMPTY_STATE, map[], map[]))
  }

  lemma {:induction false} RunAgrees<M(!new)>(settings: Settings, r: Replica<M>, hs: seq<Happening<M>>)
    requires settings.catcher && Consistent(settings, r) && HarmlessRun(settings, r, hs)
    ensures Consistent(settings, Run(settings, r, hs))
    decreases |hs|
  {
    hide Consistent, Harmless, Step, Possible;
    if hs != [] {
      StepAgreesExactly(settings, r, hs[0]);
      RunAgrees(settings, Step(settings, r, hs[0]), hs[1..]);
    }
  }

  /** Exactly-once state: after every run of deliveries, redeliveries, EOF callbacks, crashes
      at any append and restarts, the catcher log and the SAVE DONE lines of every client
      hold the same ids in the same order, each once, and the catcher refuses exactly the
      saved ids, so a redelivery is applied when, and only when, it is not saved yet. A
      stateful processor's connection log holds the same ids too, and the processor in
      memory has been given exactly the saved records. */
  lemma ExactlyOnceState<M(!new)>(settings: Settings, hs: seq<Happening<M>>, c: nat)
    requires settings.catcher && HarmlessRun(settings, Fresh<M>(), hs)
    ensures var r := Run(settings, Fresh<M>(), hs);
      && Caught(r.disk, c) == SavedIds(r.disk.cycles, c)
      && Distinct(SavedIds(r.disk.cycles, c))
      && (settings.stateful ==>
            && Ids(Connection(r.disk, c)) == SavedIds(r.disk.cycles, c)
            && multiset(Get(r.memory.applied, c, [])) == multiset(Connection(r.disk, c)))
      && forall m: Incoming<M> :: m.client == c ==> (Dropped(settings, r, m) <==> m.id in SavedIds(r.disk.cycles, c))
  {
    RunAgrees(settings, Fresh<M>(), hs);
    var r := Run(settings, Fresh<M>(), hs);
    assert LogsAgree(settings, r.disk, c) && MemoryAgrees(settings, r, c);
  }

  // ---------- when the hypotheses fail ----------

  /** A restart behind an EOF callback that has sent a message takes the last saved message
      for unsaved: its lines in the other logs are taken back, whatever its id. */
  lemma CallbackLosesTheLast<M(!new)>(settings: Settings, r: Replica<M>, client: nat, message: Subject)
    requires settings.catcher && Consistent(settings, r)
    requires r.disk.cycles != [] && r.disk.cycles[|r.disk.cycles| - 1].save.Some?
    ensures var r' := Step(settings, r, Callback(client, message));
      Consistent(settings, r') && !Consistent(settings, Step(settings, r', Restart))
  {
    var cs := r.disk.cycles;
    var front, last, r' := cs[..|cs| - 1], cs[|cs| - 1], Step(settings, r, Callback(client, message));
    CallbackAgrees(settings, r, client, message);
    LateSentKeeps(cs, message, last.client);
    assert cs == front + [last];
    SavedIdsLast(front, last, last.client);
    assert !SafeToRestart(r'.disk);
    hide Consistent, SafeToRestart;
    RestartAgreesExactly(settings, r');
  }

  const BOTH := Settings(true, true)

  /** Message 12 is saved; message 1 of the same client is interrupted right after START:
      the undo for 1 takes back 12, and the logs agree no more. */
  lemma PrefixLosesARecord()
    ensures var r := Received(BOTH, Fresh<int>(), Incoming(12, 7, [5], false, 0));
      var crash := Crash(Incoming(1, 7, [6], false, 0), 1);
      Consistent(BOTH, r) && Possible(BOTH, r, crash) && !Consistent(BOTH, Step(BOTH, r, crash))
  {
    var r, m1 := Received(BOTH, Fresh<int>(), Incoming(12, 7, [5], false, 0)), Incoming(1, 7, [6], false, 0);
    AfterTwelve(m1);
    CrashAgreesExactly(BOTH, r, m1, 1);
  }

  /** Where the first restart after an unsaved message has kept the agreement, a second one
      keeps it if and only if the id does not begin the numeral of the last saved one: the
      undo runs again. */
  lemma SecondRestartExactly<M(!new)>(settings: Settings, r: Replica<M>, m: Incoming<M>, at: nat)
    requires settings.catcher && Consistent(settings, r) && Possible(settings, r, Crash(m, at))
    requires 0 < at < SavePoint(settings, m) && Consistent(settings, Step(settings, r, Crash(m, at)))
    ensures Consistent(settings, Step(settings, Step(settings, r, Crash(m, at)), Restart))
       <==> PrefixSafe(SavedIds(r.disk.cycles, m.client), m.id)
  {
    assert ValidCycles(r.disk.cycles);
    hide Consistent, PrefixSafe, SafeToRestart;
    StillLooksUnsaved(settings, r, m, at);
    var r' := Step(settings, r, Crash(m, at));
    assert Step(settings, r', Restart) == Recover(settings, r'.disk);
    hide Recover, Possible, Step;
    RestartAgreesExactly(settings, r');
  }

  /** Message 1 is interrupted with its catcher line out: the first undo takes back that
      line, and a second restart takes back message 12. */
  lemma SecondRestartLosesARecord()
    ensures var r := Received(BOTH, Fresh<int>(), Incoming(12, 7, [5], false, 0));
      var crash := Crash(Incoming(1, 7, [6], false, 0), 3);
      && Possible(BOTH, r, crash) && Consistent(BOTH, Step(BOTH, r, crash))
      && !Consistent(BOTH, Step(BOTH, Step(BOTH, r, crash), Restart))
  {
    var r, m1 := Received(BOTH, Fresh<int>(), Incoming(12, 7, [5], false, 0)), Incoming(1, 7, [6], false, 0);
    AfterTwelve(m1);
    assert CatcherAt(BOTH, m1, 3) && Recorded(BOTH, m1) && 3 < SavePoint(BOTH, m1);
    hide Received, Step, Consistent, Possible, PrefixSafe, SavedIds, SavePoint, CatcherAt, Recorded;
    CrashAgreesExactly(BOTH, r, m1, 3);
    SecondRestartExactly(BOTH, r, m1, 3);
  }

  /** After a crash before the save the log still ends in the unsaved message, and a restart
      asks the same question again. */
  lemma StillLooksUnsaved<M>(settings: Settings, r: Replica<M>, m: Incoming<M>, at: nat)
    requires Possible(settings, r, Crash(m, at)) && ValidCycles(r.disk.cycles) && 0 < at < SavePoint(settings, m)
    ensures SafeToRestart(Step(settings, r, Crash(m, at)).disk) <==> PrefixSafe(SavedIds(r.disk.cycles, m.client), m.id)
  {
    var state := StateAfter(r.memory.state, m);
    PrefixOnDisk(settings, r.disk, m, state, at);
    CrashedDisk(settings, r.disk, m, state, at);
    SavedIdsLast(r.disk.cycles, CycleAt(settings, m, state, at), m.client);
    hide PrefixSafe, SavedIds, Recover, Ops, StateAfter, Undo;
  }

  lemma AfterTwelve(m: Incoming<int>)
    requires m.id == 1 && m.client == 7 && m.sends == 0
    ensures var r := Received(BOTH, Fresh<int>(), Incoming(12, 7, [5], false, 0));
      && Consistent(BOTH, r) && SavedIds(r.disk.cycles, 7) == [12] && !PrefixSafe([12], 1)
      && Possible(BOTH, r, Crash(m, 1)) && Possible(BOTH, r, Crash(m, 3))
  {
    var m12 := Incoming(12, 7, [5], false, 0);
    var r := Received(BOTH, Fresh<int>(), m12);
    ReceiveAgreesExactly(BOTH, Fresh<int>(), m12);
    ReceivedDisk(BOTH, Fresh<int>(), m12);
    LogsAt(BOTH, Fresh<int>().disk, m12, StateAfter(EMPTY_STATE, m12), SavePoint(BOTH, m12) + 1, 7);
    assert SavedIds(Fresh<int>().disk.cycles, 7) == [];
    hide Received, DiskAt, StateAfter, SavedIds, Connection;
    OneIsNotTwelve(r, m);
  }

  lemma OneIsNotTwelve(r: Replica<int>, m: Incoming<int>)
    requires Consistent(BOTH, r) && SavedIds(r.disk.cycles, 7) == [12] && m.id == 1 && m.client == 7
    ensures Possible(BOTH, r, Crash(m, 1)) && Possible(BOTH, r, Crash(m, 3)) && !PrefixSafe([12], 1)
  {
    assert LogsAgree(BOTH, r.disk, 7) && MemoryAgrees(BOTH, r, 7);
    assert m.id !in Caught(r.disk, 7);
    hide LogsAgree, MemoryAgrees, SavedIds, Consistent, Ops, Caught;
    OpsAt(BOTH, m, StateAfter(r.memory.state, m));
    assert Decimal(12) == Decimal(1) + [DigitChar(2)];
  }
}
