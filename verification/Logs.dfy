/**
 The communication log of one replica (commons/logger.py): its lines, the cycles
 of lines that one message leaves behind, and what a restart reads back from them.
 */
module Logs {
  import opened Sequences
  import opened Messages

  /** The counters and suspects that one save records. */
  datatype State = State(received: map<nat, int>, sent: map<nat, int>, duplicates: map<nat, seq<nat>>)

  /** The message that the storer is at; None until the first one since its process started. */
  type Subject = Option<(nat, nat)>

  datatype Line =
    | Start(id: nat, client: nat)
    | Sent(message: Subject)
    | SaveBegin(id: nat, client: nat)
    | StateLine(state: State)
    | SaveDone(id: nat, client: nat)
    | Commit(id: nat, client: nat)

  /** What one message leaves in the log, complete or cut off by a crash, and the SENT lines
      that EOF callbacks append before the next message starts. */
  datatype Cycle = Cycle(id: nat, client: nat, sents: nat, save: Option<State>, committed: bool, late: seq<Subject>)

  predicate ValidCycle(c: Cycle) {
    c.committed ==> c.save.Some?
  }

  predicate ValidCycles(cs: seq<Cycle>) {
    forall k :: 0 <= k < |cs| ==> ValidCycle(cs[k])
  }

  function SaveLines(c: Cycle): seq<Line> {
    match c.save
    case None => []
    case Some(s) => [SaveBegin(c.id, c.client), StateLine(s), SaveDone(c.id, c.client)]
  }

  function LateLines(late: seq<Subject>): (ls: seq<Line>)
    ensures |ls| == |late|
  {
    seq(|late|, i requires 0 <= i < |late| => Sent(late[i]))
  }

  function Lines(c: Cycle): seq<Line> {
    [Start(c.id, c.client)] + seq(c.sents, _ => Sent(Some((c.id, c.client)))) + SaveLines(c)
    + (if c.committed then [Commit(c.id, c.client)] else []) + LateLines(c.late)
  }

  /** The lines of the cycles, oldest line first. */
  function Render(cs: seq<Cycle>): seq<Line> {
    if cs == [] then [] else Render(cs[..|cs| - 1]) + Lines(cs[|cs| - 1])
  }

  // ---------- restoring ----------

  datatype RestoreType = FromCommit | FromSaveDone | FromSent

  datatype Restored = Nothing | Restored(kind: RestoreType, id: nat, client: nat, state: Option<State>)

  /** The state saved by the last committed message. */
  function LastCommitted(cs: seq<Cycle>): Option<State> {
    if cs == [] then None
    else if cs[|cs| - 1].committed then cs[|cs| - 1].save
    else LastCommitted(cs[..|cs| - 1])
  }

  /** The log ends in a SENT or START line, so a restart takes the last message for unsaved. */
  predicate LooksUnsaved(c: Cycle) {
    c.save.None? || c.late != []
  }

  /** What a restart finds: the last message, and the state to go on with. */
  function RestoreCycles(cs: seq<Cycle>): Restored {
    if cs == [] then Nothing
    else
      var last := cs[|cs| - 1];
      if !LooksUnsaved(last) then
        Restored(if last.committed then FromCommit else FromSaveDone, last.id, last.client, last.save)
      else
        Restored(FromSent, last.id, last.client, LastCommitted(cs[..|cs| - 1]))
  }

  datatype Token = START | SENT | SAVE_BEGIN | SAVE_DONE | COMMIT

  /** `line.startswith(token)`; the JSON of a state starts with a brace. */
  predicate Is(line: Line, token: Token) {
    match token
    case START => line.Start?
    case SENT => line.Sent?
    case SAVE_BEGIN => line.SaveBegin?
    case SAVE_DONE => line.SaveDone?
    case COMMIT => line.Commit?
  }

  /** The last of the first `at` lines that starts with the token, or -1. */
  function FindUp(log: seq<Line>, at: nat, token: Token): (k: int)
    requires at <= |log|
    ensures -1 <= k < at && (k >= 0 ==> Is(log[k], token))
  {
    if at == 0 then -1 else if Is(log[at - 1], token) then at - 1 else FindUp(log, at - 1, token)
  }

  /** Reads upwards from line `at - 1` to the first line that starts with the token;
      -1 is the end of the generator (StopIteration). */
  method SkipUp(log: seq<Line>, at: nat, token: Token) returns (k: int)
    requires at <= |log|
    ensures k == FindUp(log, at, token)
  {
    k := at - 1;
    while k >= 0 && !Is(log[k], token)
      invariant -1 <= k < at
      invariant FindUp(log, k + 1, token) == FindUp(log, at, token)
    {
      k := k - 1;
    }
  }

  lemma {:induction false} FindUpIs(log: seq<Line>, at: nat, token: Token, k: int)
    requires at <= |log| && -1 <= k < at && (k >= 0 ==> Is(log[k], token))
    requires forall j :: k < j < at ==> !Is(log[j], token)
    ensures FindUp(log, at, token) == k
  {
    if k < at - 1 {
      FindUpIs(log, at - 1, token, k);
    }
  }

  /** Reading on into the part above. */
  lemma {:induction false} FindUpAppend(a: seq<Line>, b: seq<Line>, at: nat, token: Token)
    requires at <= |b|
    ensures FindUp(a + b, |a| + at, token)
         == if FindUp(b, at, token) >= 0 then |a| + FindUp(b, at, token) else FindUp(a, |a|, token)
  {
    if at > 0 {
      FindUpAppend(a, b, at - 1, token);
    } else {
      FindUpWithin(a, b, |a|, token);
    }
  }

  lemma {:induction false} FindUpWithin(a: seq<Line>, b: seq<Line>, at: nat, token: Token)
    requires at <= |a|
    ensures FindUp(a + b, at, token) == FindUp(a, at, token)
  {
    if at > 0 {
      FindUpWithin(a, b, at - 1, token);
    }
  }

  lemma RenderLast(cs: seq<Cycle>, c: Cycle)
    ensures Render(cs + [c]) == Render(cs) + Lines(c)
  {
    assert (cs + [c])[..|cs|] == cs;
  }

  /** The number of lines of the message itself. */
  function Written(c: Cycle): nat {
    1 + c.sents + |SaveLines(c)| + (if c.committed then 1 else 0)
  }

  /** The lines of one cycle, by position. */
  lemma LinesAt(c: Cycle)
    ensures var ls := Lines(c);
      && |ls| == Written(c) + |c.late|
      && ls[0] == Start(c.id, c.client)
      && (forall j :: 0 < j <= c.sents ==> ls[j] == Sent(Some((c.id, c.client))))
      && (forall j :: c.sents < j <= c.sents + |SaveLines(c)| ==> ls[j] == SaveLines(c)[j - c.sents - 1])
      && (c.committed ==> ls[Written(c) - 1] == Commit(c.id, c.client))
      && (forall j :: Written(c) <= j < |ls| ==> ls[j] == Sent(c.late[j - Written(c)]))
  {
  }

  /** Where the scans stop inside the lines of one cycle. */
  predicate CycleScans(ls: seq<Line>, c: Cycle) {
    && |ls| > 0
    && FindUp(ls, |ls|, COMMIT) == (if c.committed then c.sents + 4 else -1)
    && FindUp(ls, |ls|, START) == 0
    && (if c.save.Some? then
          && FindUp(ls, |ls|, SAVE_DONE) == c.sents + 3 < |ls|
          && ls[c.sents + 2] == StateLine(c.save.value)
          && FindUp(ls, c.sents + 2, START) == 0
        else FindUp(ls, |ls|, SAVE_DONE) == -1)
    && (c.committed ==> c.sents + 5 <= |ls| && FindUp(ls, c.sents + 5, SAVE_DONE) == c.sents + 3)
    && ls[0] == Start(c.id, c.client)
    && (ls[|ls| - 1].Commit? <==> c.committed && c.late == [])
    && (ls[|ls| - 1].SaveDone? <==> c.save.Some? && !c.committed && c.late == [])
  }

  lemma FindInCycle(c: Cycle)
    requires ValidCycle(c)
    ensures CycleScans(Lines(c), c)
  {
    var ls := Lines(c);
    LinesAt(c);
    FindUpIs(ls, |ls|, START, 0);
    if c.save.Some? {
      FindUpIs(ls, |ls|, SAVE_DONE, c.sents + 3);
      FindUpIs(ls, c.sents + 2, START, 0);
      if c.committed {
        FindUpIs(ls, c.sents + 5, SAVE_DONE, c.sents + 3);
      }
    } else {
      FindUpIs(ls, |ls|, SAVE_DONE, -1);
    }
    FindUpIs(ls, |ls|, COMMIT, if c.committed then c.sents + 4 else -1);
  }

  /** Where the scans stop in a whole log: in the last cycle, or in the log before it. */
  predicate LastScans(log: seq<Line>, front: seq<Line>, c: Cycle) {
    && |front| < |log| && log[|front|] == Start(c.id, c.client)
    && (log[|log| - 1].Commit? <==> c.committed && c.late == [])
    && (log[|log| - 1].SaveDone? <==> c.save.Some? && !c.committed && c.late == [])
    && FindUp(log, |log|, COMMIT) == (if c.committed then |front| + c.sents + 4 else FindUp(front, |front|, COMMIT))
    && FindUp(log, |log|, START) == |front|
    && (c.save.Some? ==>
          var done := FindUp(log, |log|, SAVE_DONE);
          && done == |front| + c.sents + 3
          && log[done - 1] == StateLine(c.save.value)
          && FindUp(log, done - 1, START) == |front|)
    && (c.committed ==>
          |front| + c.sents + 5 <= |log| && FindUp(log, |front| + c.sents + 5, SAVE_DONE) == |front| + c.sents + 3)
  }

  ghost predicate Scans(log: seq<Line>, front: seq<Line>, c: Cycle) {
    && LastScans(log, front, c)
    && (forall at, token :: 0 <= at <= |front| ==> FindUp(log, at, token) == FindUp(front, at, token))
    && (forall j :: 0 <= j < |front| ==> log[j] == front[j])
  }

  lemma LastParts(front: seq<Line>, ls: seq<Line>, c: Cycle)
    requires CycleScans(ls, c)
    ensures LastScans(front + ls, front, c)
  {
    hide FindUp, Is;
    var log, n := front + ls, c.sents;
    assert forall k :: 0 <= k < |ls| ==> log[|front| + k] == ls[k];
    FindUpAppend(front, ls, |ls|, COMMIT);
    FindUpAppend(front, ls, |ls|, START);
    if c.save.Some? {
      FindUpAppend(front, ls, |ls|, SAVE_DONE);
      FindUpAppend(front, ls, n + 2, START);
      assert log[|front| + n + 2] == ls[n + 2];
    }
    if c.committed {
      FindUpAppend(front, ls, n + 5, SAVE_DONE);
    }
    assert log[|front|] == ls[0] && log[|log| - 1] == ls[|ls| - 1];
  }

  lemma ScanParts(front: seq<Line>, ls: seq<Line>, c: Cycle)
    requires CycleScans(ls, c)
    ensures Scans(front + ls, front, c)
  {
    LastParts(front, ls, c);
    FindUpsWithin(front, ls);
    hide FindUp, CycleScans, LastScans;
  }

  lemma FindUpsWithin(front: seq<Line>, ls: seq<Line>)
    ensures forall at, token :: 0 <= at <= |front| ==> FindUp(front + ls, at, token) == FindUp(front, at, token)
  {
    forall at, token | 0 <= at <= |front|
      ensures FindUp(front + ls, at, token) == FindUp(front, at, token)
    {
      FindUpWithin(front, ls, at, token);
    }
  }

  /** A log may begin with SENT lines, of EOF callbacks before the first message ever. */
  predicate OnlySent(head: seq<Line>) {
    forall k :: 0 <= k < |head| ==> Is(head[k], SENT)
  }

  lemma ScanLog(head: seq<Line>, cs: seq<Cycle>)
    requires cs != [] && ValidCycles(cs)
    ensures Scans(head + Render(cs), head + Render(cs[..|cs| - 1]), cs[|cs| - 1])
  {
    LastLines(head, cs);
    FindInCycle(cs[|cs| - 1]);
    hide Scans, CycleScans, Render, Lines;
    ScanParts(head + Render(cs[..|cs| - 1]), Lines(cs[|cs| - 1]), cs[|cs| - 1]);
  }

  lemma LastLines(head: seq<Line>, cs: seq<Cycle>)
    requires cs != []
    ensures head + Render(cs) == (head + Render(cs[..|cs| - 1])) + Lines(cs[|cs| - 1])
  {
    hide Lines;
  }

  /** The state that the COMMIT line and the SAVE DONE line above it lead to. */
  function CommittedState(log: seq<Line>): Option<State> {
    var commit := FindUp(log, |log|, COMMIT);
    if commit < 0 then None
    else
      var done := FindUp(log, commit + 1, SAVE_DONE);
      if done >= 1 && log[done - 1].StateLine? then Some(log[done - 1].state) else None
  }

  lemma {:induction false} CommitLeadsToState(head: seq<Line>, cs: seq<Cycle>)
    requires OnlySent(head) && ValidCycles(cs)
    ensures var log := head + Render(cs);
      && CommittedState(log) == LastCommitted(cs)
      && (FindUp(log, |log|, COMMIT) >= 0 ==> LastCommitted(cs).Some?)
  {
    var log := head + Render(cs);
    if cs == [] {
      FindUpIs(log, |log|, COMMIT, -1);
    } else {
      var front := head + Render(cs[..|cs| - 1]);
      ScanLog(head, cs);
      hide Scans, CommittedState;
      if cs[|cs| - 1].committed {
        CommittedIsLast(log, front, cs[|cs| - 1]);
      } else {
        UncommittedLooksBack(log, front, cs[|cs| - 1]);
        CommitLeadsToState(head, cs[..|cs| - 1]);
      }
    }
  }

  lemma CommittedIsLast(log: seq<Line>, front: seq<Line>, c: Cycle)
    requires Scans(log, front, c) && ValidCycle(c) && c.committed
    ensures CommittedState(log) == c.save
  {
  }

  lemma UncommittedLooksBack(log: seq<Line>, front: seq<Line>, c: Cycle)
    requires Scans(log, front, c) && ValidCycle(c) && !c.committed
    ensures CommittedState(log) == CommittedState(front)
    ensures FindUp(log, |log|, COMMIT) == FindUp(front, |front|, COMMIT)
  {
  }

  /** Logger.restore: scans the lines bottom up and returns what the cycles say.
      (Undoing the last line of the other two logs is Recovery.Undo.) */
  method Restore(log: seq<Line>, ghost head: seq<Line>, ghost cs: seq<Cycle>) returns (r: Restored)
    requires log == head + Render(cs) && OnlySent(head) && ValidCycles(cs)
    ensures r == RestoreCycles(cs)
  {
    ghost var front := [];
    if cs == [] {
      FindUpIs(log, |log|, START, -1);
    } else {
      ScanLog(head, cs);
      front := head + Render(cs[..|cs| - 1]);
      CommitLeadsToState(head, cs[..|cs| - 1]);
    }
    r := Scan(log, front, if cs == [] then Cycle(0, 0, 0, None, false, []) else cs[|cs| - 1], cs == []);
  }

  /** The scan itself, over any log that ends in the lines of cycle `c`, or over one
      without any message, whose reading runs off the top of the file. */
  method Scan(log: seq<Line>, ghost front: seq<Line>, ghost c: Cycle, ghost empty: bool) returns (r: Restored)
    requires empty ==> OnlySent(log) && FindUp(log, |log|, START) == -1
    requires !empty ==> ValidCycle(c) && Scans(log, front, c)
    requires FindUp(front, |front|, COMMIT) >= 0 ==> CommittedState(front).Some?
    ensures empty ==> r == Nothing
    ensures !empty ==>
      r == if !LooksUnsaved(c) then
             Restored(if c.committed then FromCommit else FromSaveDone, c.id, c.client, c.save)
           else Restored(FromSent, c.id, c.client, CommittedState(front))
  {
    if log == [] {
      return Nothing;
    }
    var last := log[|log| - 1];
    if last.Commit? || last.SaveDone? {
      var done := SkipUp(log, |log|, SAVE_DONE);
      var state := log[done - 1].state;
      var start := SkipUp(log, done - 1, START);
      return Restored(if last.Commit? then FromCommit else FromSaveDone, log[start].id, log[start].client, Some(state));
    }
    var start := SkipUp(log, |log|, START);
    if start < 0 {
      return Nothing;
    }
    var state := None;
    var commit := SkipUp(log, start, COMMIT);
    if commit >= 0 {
      var done := SkipUp(log, commit + 1, SAVE_DONE);
      state := Some(log[done - 1].state);
    }
    return Restored(FromSent, log[start].id, log[start].client, state);
  }

  // ---------- searching ----------

  /** The saved messages of one client, oldest first. */
  function Records(cs: seq<Cycle>, client: nat): seq<ProcessedMessage> {
    if cs == [] then []
    else
      var c := cs[|cs| - 1];
      Records(cs[..|cs| - 1], client)
      + (if c.save.Some? && c.client == client then [ProcessedMessage(c.id, c.sents > 0)] else [])
  }

  lemma RecordsLast(cs: seq<Cycle>, cycle: Cycle, client: nat)
    ensures Records(cs + [cycle], client)
         == Records(cs, client)
            + (if cycle.save.Some? && cycle.client == client then [ProcessedMessage(cycle.id, cycle.sents > 0)] else [])
  {
    assert (cs + [cycle])[..|cs|] == cs;
  }
}
