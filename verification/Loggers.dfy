/** The objects that write and read the logs (logger.py, log_storer.py, duplicate_catcher.py). */
module Loggers {
  import opened Sequences
  import opened Messages
  import opened EofRing
  import opened Logs
  import opened LogSearch
  import opened Recovery

  class DuplicateCatcher {
    var messagesId: set<nat>

    constructor ()
      ensures messagesId == {}
    {
      messagesId := {};
    }

    method IsDuplicate(messageId: nat) returns (duplicate: bool)
      modifies this
      ensures duplicate <==> messageId in old(messagesId)
      ensures messagesId == old(messagesId) + {messageId}
    {
      if messageId in messagesId {
        return true;
      }
      messagesId := messagesId + {messageId};
      return false;
    }
  }

  /** Restores a client's catcher from the lines of its log (restore_duplicate_catchers). */
  method RestoreCatcher(lines: seq<nat>) returns (catcher: DuplicateCatcher)
    ensures fresh(catcher) && catcher.messagesId == Elements(lines)
  {
    catcher := new DuplicateCatcher();
    for i := 0 to |lines|
      invariant fresh(catcher) && catcher.messagesId == Elements(lines[..i])
    {
      var _ := catcher.IsDuplicate(lines[i]);
    }
    assert lines[..|lines|] == lines;
  }

  /** The file is the rendered cycles, perhaps below SENT lines of before the first message. */
  ghost predicate IsFile(log: seq<Line>, head: seq<Line>, cycles: seq<Cycle>) {
    log == head + Render(cycles) && OnlySent(head) && ValidCycles(cycles)
  }

  /** The last message has been started and not saved. */
  predicate StillLogging(cycles: seq<Cycle>, id: nat, client: nat) {
    cycles != []
    && var last := cycles[|cycles| - 1];
       last.id == id && last.client == client && last.save.None? && !last.committed && last.late == []
  }

  /** The files of one replica. `appends` is the history of atomic appends: a crash leaves
      the effect of one of its prefixes. */
  class Logger<M> {
    var communicationLog: seq<Line>
    var connectionLogs: map<nat, seq<Record<M>>>
    var catcherLogs: map<nat, seq<nat>>
    ghost var head: seq<Line>       // SENT lines above the first START
    ghost var cycles: seq<Cycle>
    ghost var appends: seq<Op<M>>

    ghost predicate Valid()
      reads this
    {
      IsFile(communicationLog, head, cycles)
    }

    ghost function Disk(): Disk<M>
      reads this
    {
      Recovery.Disk(cycles, connectionLogs, catcherLogs)
    }

    constructor ()
      ensures Valid() && Disk() == Recovery.Disk([], map[], map[]) && appends == []
    {
      communicationLog, connectionLogs, catcherLogs := [], map[], map[];
      head, cycles, appends := [], [], [];
    }

    /** The message being logged has been started and not saved. */
    ghost predicate Logging(id: nat, client: nat)
      reads this
    {
      StillLogging(cycles, id, client)
    }

    ghost predicate Appended(before: Disk<M>, history: seq<Op<M>>, op: Op<M>)
      reads this
    {
      Valid() && Disk() == Apply(before, op) && appends == history + [op]
    }

    method Start(id: nat, client: nat)
      requires Valid()
      modifies this
      ensures communicationLog == old(communicationLog) + [Line.Start(id, client)]
      ensures Appended(old(Disk()), old(appends), StartOp(id, client)) && Logging(id, client)
    {
      FileStarted(communicationLog, head, cycles, id, client);
      hide IsFile;
      communicationLog := communicationLog + [Line.Start(id, client)];
      cycles := cycles + [Cycle(id, client, 0, None, false, [])];
      appends := appends + [StartOp(id, client)];
    }

    /** At any time: for the message being logged, after its COMMIT, or before any message. */
    method Sent(message: Subject)
      requires Valid()
      modifies this
      ensures communicationLog == old(communicationLog) + [Line.Sent(message)]
      ensures Appended(old(Disk()), old(appends), SentOp(message))
      ensures forall id, client :: message == Some((id, client)) && old(Logging(id, client)) ==> Logging(id, client)
    {
      FileSent(communicationLog, head, cycles, message);
      hide IsFile, WithSent;
      communicationLog := communicationLog + [Line.Sent(message)];
      if cycles == [] {
        head := head + [Line.Sent(message)];
      } else {
        cycles := cycles[|cycles| - 1 := WithSent(cycles[|cycles| - 1], message)];
      }
      appends := appends + [SentOp(message)];
    }

    method SaveConnection(id: nat, client: nat, batch: seq<M>)
      requires Valid()
      modifies this
      ensures Appended(old(Disk()), old(appends), ConnectionOp(client, Record(id, batch)))
    {
      var file := if client in connectionLogs then connectionLogs[client] else [];
      connectionLogs := connectionLogs[client := file + [Record(id, batch)]];
      appends := appends + [ConnectionOp(client, Record(id, batch))];
    }

    method SaveDuplicateCatcher(id: nat, client: nat)
      requires Valid()
      modifies this
      ensures Appended(old(Disk()), old(appends), CatcherOp(client, id))
    {
      var file := if client in catcherLogs then catcherLogs[client] else [];
      catcherLogs := catcherLogs[client := file + [id]];
      appends := appends + [CatcherOp(client, id)];
    }

    method SaveCommunication(id: nat, client: nat, state: State)
      requires Valid() && Logging(id, client)
      modifies this
      ensures communicationLog == old(communicationLog)
        + [Line.SaveBegin(id, client), Line.StateLine(state), Line.SaveDone(id, client)]
      ensures Appended(old(Disk()), old(appends), SaveOp(state))
      ensures cycles[|cycles| - 1] == old(cycles[|cycles| - 1]).(save := Some(state))
    {
      FileSaved(communicationLog, head, cycles, state);
      hide IsFile;
      communicationLog := communicationLog
        + [Line.SaveBegin(id, client), Line.StateLine(state), Line.SaveDone(id, client)];
      ghost var last := cycles[|cycles| - 1];
      cycles := cycles[|cycles| - 1 := last.(save := Some(state))];
      appends := appends + [SaveOp(state)];
    }

    method Commit(id: nat, client: nat)
      requires Valid() && cycles != []
      requires var last := cycles[|cycles| - 1]; 
        last.id == id && last.client == client && last.save.Some? && !last.committed && last.late == []
      modifies this
      ensures communicationLog == old(communicationLog) + [Line.Commit(id, client)]
      ensures Appended(old(Disk()), old(appends), CommitOp)
    {
      FileCommitted(communicationLog, head, cycles);
      hide IsFile;
      communicationLog := communicationLog + [Line.Commit(id, client)];
      cycles := cycles[|cycles| - 1 := cycles[|cycles| - 1].(committed := true)];
      appends := appends + [CommitOp];
    }

    /** Restores and undoes what an interrupted message has left in the other two logs. */
    method Restore() returns (r: Restored)
      requires Valid()
      modifies this
      ensures Valid() && r == RestoreCycles(old(cycles))
      ensures communicationLog == old(communicationLog) && appends == old(appends)
      ensures Disk() == if r.Restored? && r.kind == FromSent then Undo(old(Disk()), r.id, r.client) else old(Disk())
    {
      r := Logs.Restore(communicationLog, head, cycles);
      if r.Restored? && r.kind == FromSent {
        if r.client in connectionLogs {
          var file := connectionLogs[r.client];
          connectionLogs := connectionLogs[r.client := UndoRecords(file, r.id)];
        }
        if r.client in catcherLogs {
          var file := catcherLogs[r.client];
          catcherLogs := catcherLogs[r.client := UndoIds(file, r.id)];
        }
      }
    }

    method SearchForDuplicateMessages(client: nat, ids: seq<nat>) returns (found: seq<ProcessedMessage>)
      requires Valid()
      ensures found == Search(Records(cycles, client), ids)
    {
      found := LogSearch.SearchForDuplicateMessages(communicationLog, client, ids, head, cycles);
    }
  }

  // ---------- one append, seen in the file ----------

  lemma FileStarted(log: seq<Line>, head: seq<Line>, cs: seq<Cycle>, id: nat, client: nat)
    requires IsFile(log, head, cs)
    ensures IsFile(log + [Line.Start(id, client)], head, cs + [Cycle(id, client, 0, None, false, [])])
  {
    NowStarted(cs, id, client);
    hide Render, Lines, OnlySent;
  }

  lemma FileSent(log: seq<Line>, head: seq<Line>, cs: seq<Cycle>, message: Subject)
    requires IsFile(log, head, cs)
    ensures
      if cs == [] then IsFile(log + [Line.Sent(message)], head + [Line.Sent(message)], cs)
      else
        var cs' := cs[|cs| - 1 := WithSent(cs[|cs| - 1], message)];
        && IsFile(log + [Line.Sent(message)], head, cs')
        && forall id, client :: message == Some((id, client)) && StillLogging(cs, id, client) ==>
             StillLogging(cs', id, client)
  {
    if cs != [] {
      OneMoreSent(cs, message);
      hide Render, Lines, OnlySent, ValidCycles;
    }
  }

  lemma FileSaved(log: seq<Line>, head: seq<Line>, cs: seq<Cycle>, s: State)
    requires IsFile(log, head, cs) && cs != []
    requires var last := cs[|cs| - 1]; last.save.None? && !last.committed && last.late == []
    ensures var last := cs[|cs| - 1];
      IsFile(log + [Line.SaveBegin(last.id, last.client), Line.StateLine(s), Line.SaveDone(last.id, last.client)],
             head, cs[|cs| - 1 := last.(save := Some(s))])
  {
    NowSaved(cs, s);
    hide Render, Lines, OnlySent;
  }

  lemma FileCommitted(log: seq<Line>, head: seq<Line>, cs: seq<Cycle>)
    requires IsFile(log, head, cs) && cs != []
    requires var last := cs[|cs| - 1]; last.save.Some? && !last.committed && last.late == []
    ensures var last := cs[|cs| - 1];
      IsFile(log + [Line.Commit(last.id, last.client)], head, cs[|cs| - 1 := last.(committed := true)])
  {
    NowCommitted(cs);
    hide Render, Lines, OnlySent;
  }

  lemma LastReplaced(cs: seq<Cycle>, c: Cycle)
    requires cs != []
    ensures Render(cs[|cs| - 1 := c]) == Render(cs[..|cs| - 1]) + Lines(c)
  {
    assert cs[|cs| - 1 := c] == cs[..|cs| - 1] + [c];
    RenderLast(cs[..|cs| - 1], c);
  }

  lemma NowStarted(cs: seq<Cycle>, id: nat, client: nat)
    ensures Render(cs + [Cycle(id, client, 0, None, false, [])]) == Render(cs) + [Line.Start(id, client)]
  {
    RenderLast(cs, Cycle(id, client, 0, None, false, []));
    assert Lines(Cycle(id, client, 0, None, false, [])) == [Line.Start(id, client)];
  }

  lemma OneMoreSent(cs: seq<Cycle>, message: Subject)
    requires cs != [] && ValidCycles(cs)
    ensures ValidCycles(cs[|cs| - 1 := WithSent(cs[|cs| - 1], message)])
    ensures Render(cs[|cs| - 1 := WithSent(cs[|cs| - 1], message)]) == Render(cs) + [Line.Sent(message)]
  {
    var last := cs[|cs| - 1];
    assert ValidCycle(last);
    LastReplaced(cs, WithSent(last, message));
    OneMoreLine(last, message);
  }

  lemma OneMoreLine(c: Cycle, message: Subject)
    requires ValidCycle(c)
    ensures Lines(WithSent(c, message)) == Lines(c) + [Line.Sent(message)]
  {
    if WithSent(c, message).late != c.late {
      assert LateLines(c.late + [message]) == LateLines(c.late) + [Line.Sent(message)];
    }
  }

  lemma NowSaved(cs: seq<Cycle>, s: State)
    requires cs != [] && cs[|cs| - 1].save.None? && !cs[|cs| - 1].committed && cs[|cs| - 1].late == []
    ensures var last := cs[|cs| - 1];
      Render(cs[|cs| - 1 := last.(save := Some(s))])
      == Render(cs) + [Line.SaveBegin(last.id, last.client), Line.StateLine(s), Line.SaveDone(last.id, last.client)]
  {
    var last := cs[|cs| - 1];
    LastReplaced(cs, last.(save := Some(s)));
    assert Lines(last.(save := Some(s))) == Lines(last) + SaveLines(last.(save := Some(s)));
  }

  lemma NowCommitted(cs: seq<Cycle>)
    requires cs != [] && !cs[|cs| - 1].committed && cs[|cs| - 1].late == []
    ensures var last := cs[|cs| - 1];
      Render(cs[|cs| - 1 := last.(committed := true)]) == Render(cs) + [Line.Commit(last.id, last.client)]
  {
    var last := cs[|cs| - 1];
    LastReplaced(cs, last.(committed := true));
    assert Lines(last.(committed := true)) == Lines(last) + [Line.Commit(last.id, last.client)];
  }

  /** Buffers what one message will save, and appends it in a fixed order. */
  class LogStorer<M> {
    const logger: Logger<M>
    var currentMessageId: nat       // both are None in a new process
    var currentClientId: nat
    var started: bool               // no longer None
    var currentState: State
    var connectionMessages: seq<M>
    var newMessageForDuplicateCatcher: bool

    constructor (logger: Logger<M>)
      ensures this.logger == logger && At() == None
    {
      this.logger := logger;
      currentMessageId, currentClientId, started, currentState := 0, 0, false, EMPTY_STATE;
      connectionMessages, newMessageForDuplicateCatcher := [], false;
    }

    /** What the SENT lines name. */
    function At(): Subject
      reads this
    {
      if started then Some((currentMessageId, currentClientId)) else None
    }

    ghost predicate Current()
      reads this, logger
    {
      logger.Valid() && started && logger.Logging(currentMessageId, currentClientId)
    }

    method NewMessageReceived(messageId: nat, clientId: nat)
      requires logger.Valid()
      modifies this, logger
      ensures currentMessageId == messageId && currentClientId == clientId
      ensures currentState == EMPTY_STATE && connectionMessages == [] && !newMessageForDuplicateCatcher
      ensures logger.Appended(old(logger.Disk()), old(logger.appends), StartOp(messageId, clientId)) && Current()
    {
      hide IsFile;
      currentState, connectionMessages, newMessageForDuplicateCatcher := EMPTY_STATE, [], false;
      currentMessageId, currentClientId, started := messageId, clientId, true;
      logger.Start(messageId, clientId);
    }

    method MessageSent()
      requires logger.Valid()
      modifies logger
      ensures logger.Appended(old(logger.Disk()), old(logger.appends), SentOp(At()))
      ensures logger.communicationLog == old(logger.communicationLog) + [Line.Sent(At())]
      ensures old(Current()) ==> Current()
    {
      hide IsFile;
      logger.Sent(At());
    }

    method StoreMessagesReceived(received: map<nat, int>)
      modifies this`currentState
      ensures currentState == old(currentState).(received := received)
    {
      currentState := currentState.(received := received);
    }

    method StoreMessagesSent(sent: map<nat, int>)
      modifies this`currentState
      ensures currentState == old(currentState).(sent := sent)
    {
      currentState := currentState.(sent := sent);
    }

    method StorePossibleDuplicates(duplicates: map<nat, seq<nat>>)
      modifies this`currentState
      ensures currentState == old(currentState).(duplicates := duplicates)
    {
      currentState := currentState.(duplicates := duplicates);
    }

    method StoreNewConnectionMessage(messages: seq<M>)
      modifies this`connectionMessages
      ensures connectionMessages == messages
    {
      connectionMessages := messages;
    }

    method StoreNewMessageForDuplicateCatcher()
      modifies this`newMessageForDuplicateCatcher
      ensures newMessageForDuplicateCatcher
    {
      newMessageForDuplicateCatcher := true;
    }

    /** Connection log first, then catcher log, then the state: a crash in between leaves
        records without a save, which the restart takes back. */
    method FinishStoringMessage()
      requires Current()
      modifies logger
      ensures logger.Valid()
      ensures logger.appends == old(logger.appends)
        + (if connectionMessages != [] then
             [ConnectionOp(currentClientId, Record(currentMessageId, connectionMessages))] else [])
        + (if newMessageForDuplicateCatcher then [CatcherOp(currentClientId, currentMessageId)] else [])
        + [SaveOp(currentState)]
      ensures logger.cycles == old(logger.cycles)[|old(logger.cycles)| - 1 :=
        old(logger.cycles)[|old(logger.cycles)| - 1].(save := Some(currentState))]
      ensures logger.connectionLogs == if connectionMessages != [] then
          old(logger.connectionLogs)[currentClientId :=
            Get(old(logger.connectionLogs), currentClientId, []) + [Record(currentMessageId, connectionMessages)]]
        else old(logger.connectionLogs)
      ensures logger.catcherLogs == if newMessageForDuplicateCatcher then
          old(logger.catcherLogs)[currentClientId :=
            Get(old(logger.catcherLogs), currentClientId, []) + [currentMessageId]]
        else old(logger.catcherLogs)
    {
      hide IsFile;
      if |connectionMessages| > 0 {
        logger.SaveConnection(currentMessageId, currentClientId, connectionMessages);
      }
      if newMessageForDuplicateCatcher {
        logger.SaveDuplicateCatcher(currentMessageId, currentClientId);
      }
      logger.SaveCommunication(currentMessageId, currentClientId, currentState);
    }

    method CommitMessage()
      requires logger.Valid() && logger.cycles != []
      requires var last := logger.cycles[|logger.cycles| - 1];
        last.id == currentMessageId && last.client == currentClientId && last.save.Some? && !last.committed
        && last.late == []
      modifies logger
      ensures logger.Appended(old(logger.Disk()), old(logger.appends), CommitOp)
    {
      logger.Commit(currentMessageId, currentClientId);
    }
  }

  /** Restorer.restore: reads the last state and marks an interrupted message as a suspect. */
  method RestoreCounters<M>(logger: Logger<M>) returns (state: State)
    requires logger.Valid()
    modifies logger
    ensures logger.Valid() && state == RestoredState(RestoreCycles(old(logger.cycles)))
    ensures logger.communicationLog == old(logger.communicationLog) && logger.appends == old(logger.appends)
    ensures forall settings :: logger.Disk() == Recover(settings, old(logger.Disk())).disk
  {
    var r := logger.Restore();
    state := EMPTY_STATE;
    if r.Restored? && r.state.Some? {
      state := r.state.value;
    }
    if r.Restored? && (r.kind == FromSaveDone || r.kind == FromSent) {
      var known := if r.client in state.duplicates then state.duplicates[r.client] else [];
      state := state.(duplicates := state.duplicates[r.client := known + [r.id]]);
    }
  }
}
