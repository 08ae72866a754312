/**
 What a restart puts back into the counters (logger.py:113-208, restorer.py:21-57):
 the restored counts are the numbers of saved messages, exactly as long as no save
 is left without its COMMIT behind an unsaved message.
 */
module RestoredCounts {
  import opened Sequences
  import opened Logs
  import opened Recovery

  /** The outputs counted by the saved messages of a client. */
  function SentCount(cs: seq<Cycle>, c: nat): nat {
    if cs == [] then 0
    else
      var last := cs[|cs| - 1];
      SentCount(cs[..|cs| - 1], c)
      + (if last.save.Some? && last.client == c && last.sents > 0 then last.sents - 1 else 0)
  }

  predicate CountsOf(s: State, cs: seq<Cycle>, c: nat) {
    Get(s.received, c, 0) == |Records(cs, c)| && Get(s.sent, c, 0) == SentCount(cs, c)
  }

  /** The counters are the numbers of SAVE DONE lines and of the outputs they stand for. */
  ghost predicate CountsMatch(s: State, cs: seq<Cycle>) {
    forall c: nat :: CountsOf(s, cs, c)
  }

  /** Every saved state was right when it was written. */
  ghost predicate StatesMatch(cs: seq<Cycle>) {
    forall k :: 0 <= k < |cs| && cs[k].save.Some? ==> CountsMatch(cs[k].save.value, cs[..k + 1])
  }

  /** A message was saved after the last COMMIT. */
  predicate PendingSave(cs: seq<Cycle>) {
    cs != [] && !cs[|cs| - 1].committed && (cs[|cs| - 1].save.Some? || PendingSave(cs[..|cs| - 1]))
  }

  ghost predicate Counted<M>(r: Replica<M>) {
    ValidCycles(r.disk.cycles) && StatesMatch(r.disk.cycles) && CountsMatch(r.memory.state, r.disk.cycles)
  }

  function StateOr(s: Option<State>): State {
    if s.Some? then s.value else EMPTY_STATE
  }

  lemma CountsLast(cs: seq<Cycle>, cycle: Cycle, c: nat)
    ensures |Records(cs + [cycle], c)| == |Records(cs, c)| + (if cycle.save.Some? && cycle.client == c then 1 else 0)
    ensures SentCount(cs + [cycle], c)
         == SentCount(cs, c) + (if cycle.save.Some? && cycle.client == c && cycle.sents > 0 then cycle.sents - 1 else 0)
  {
    RecordsLast(cs, cycle, c);
    assert (cs + [cycle])[..|cs|] == cs;
  }

  lemma StatesMatchFront(cs: seq<Cycle>)
    requires cs != [] && StatesMatch(cs)
    ensures StatesMatch(cs[..|cs| - 1])
  {
    var front := cs[..|cs| - 1];
    forall k | 0 <= k < |front| && front[k].save.Some?
      ensures CountsMatch(front[k].save.value, front[..k + 1])
    {
      assert front[..k + 1] == cs[..k + 1];
    }
  }

  lemma StatesMatchLast(cs: seq<Cycle>, cycle: Cycle)
    requires StatesMatch(cs) && (cycle.save.Some? ==> CountsMatch(cycle.save.value, cs + [cycle]))
    ensures StatesMatch(cs + [cycle])
  {
    var all := cs + [cycle];
    forall k | 0 <= k < |all| && all[k].save.Some?
      ensures CountsMatch(all[k].save.value, all[..k + 1])
    {
      if k < |cs| {
        assert all[..k + 1] == cs[..k + 1];
      } else {
        assert all[..k + 1] == all;
      }
    }
  }

  // ---------- the state of the last COMMIT ----------

  /** It never counts too much, and it misses a message when a save is pending. */
  lemma {:induction false} CommittedAtMost(cs: seq<Cycle>, c: nat)
    requires ValidCycles(cs) && StatesMatch(cs)
    ensures Get(StateOr(LastCommitted(cs)).received, c, 0) <= |Records(cs, c)|
  {
    if cs != [] {
      if cs[|cs| - 1].committed {
        assert cs[..|cs| - 1 + 1] == cs;
        assert CountsOf(cs[|cs| - 1].save.value, cs[..|cs| - 1 + 1], c);
      } else {
        StatesMatchFront(cs);
        CommittedAtMost(cs[..|cs| - 1], c);
      }
    }
  }

  lemma {:induction false} CommittedMisses(cs: seq<Cycle>)
    requires ValidCycles(cs) && StatesMatch(cs) && PendingSave(cs)
    ensures exists c :: Get(StateOr(LastCommitted(cs)).received, c, 0) < |Records(cs, c)|
  {
    var front, last := cs[..|cs| - 1], cs[|cs| - 1];
    StatesMatchFront(cs);
    if last.save.Some? {
      CommittedAtMost(front, last.client);
      assert Get(StateOr(LastCommitted(cs)).received, last.client, 0) < |Records(cs, last.client)|;
    } else {
      CommittedMisses(front);
      var c :| Get(StateOr(LastCommitted(front)).received, c, 0) < |Records(front, c)|;
      assert Get(StateOr(LastCommitted(cs)).received, c, 0) < |Records(cs, c)|;
    }
  }

  lemma {:induction false} CommittedMatches(cs: seq<Cycle>, c: nat)
    requires ValidCycles(cs) && StatesMatch(cs) && !PendingSave(cs)
    ensures CountsOf(StateOr(LastCommitted(cs)), cs, c)
  {
    if cs != [] {
      if cs[|cs| - 1].committed {
        assert cs[..|cs| - 1 + 1] == cs;
        assert CountsOf(cs[|cs| - 1].save.value, cs[..|cs| - 1 + 1], c);
      } else {
        StatesMatchFront(cs);
        CommittedMatches(cs[..|cs| - 1], c);
      }
    }
  }

  /** After an interrupted, unsaved message the restored counts are right if and only if
      no save before it lacks its COMMIT. */
  lemma RestoredExactly(cs: seq<Cycle>, cut: Cycle)
    requires ValidCycles(cs) && StatesMatch(cs) && cut.save.None? && !cut.committed
    ensures CountsMatch(RestoredState(RestoreCycles(cs + [cut])), cs + [cut]) <==> !PendingSave(cs)
  {
    var state := RestoredState(RestoreCycles(cs + [cut]));
    assert (cs + [cut])[..|cs|] == cs;
    if PendingSave(cs) {
      CommittedMisses(cs);
      var c :| Get(StateOr(LastCommitted(cs)).received, c, 0) < |Records(cs, c)|;
      CountsLast(cs, cut, c);
      assert !CountsOf(state, cs + [cut], c);
    } else {
      forall c: nat
        ensures CountsOf(state, cs + [cut], c)
      {
        CommittedMatches(cs, c);
        CountsLast(cs, cut, c);
      }
    }
  }

  // ---------- the machine ----------

  /** Checked before the step: an EOF callback sends nothing, and a crash or restart finds
      nothing saved since the last COMMIT, unless the log ends in that very save. */
  predicate Separated<M>(settings: Settings, r: Replica<M>, h: Happening<M>) {
    match h
    case Receive(_) => true
    case HandBack(_) => true
    case Callback(_, _) => false
    case Crash(m, at) =>
      if at == 0 then FrontClear(r.disk.cycles) else at >= SavePoint(settings, m) || !PendingSave(r.disk.cycles)
    case Restart => FrontClear(r.disk.cycles)
  }

  predicate FrontClear(cs: seq<Cycle>) {
    cs != [] && LooksUnsaved(cs[|cs| - 1]) ==> cs[|cs| - 1].save.None? && !PendingSave(cs[..|cs| - 1])
  }

  /** A restart finds the right counts if and only if its log ends in a save, or in an
      unsaved message behind a COMMIT with no save in between. */
  lemma RestartCountsExactly(cs: seq<Cycle>)
    requires ValidCycles(cs) && StatesMatch(cs)
    ensures CountsMatch(RestoredState(RestoreCycles(cs)), cs) <==> FrontClear(cs)
  {
    if cs != [] {
      var front, last := cs[..|cs| - 1], cs[|cs| - 1];
      assert cs == front + [last];
      StatesMatchFront(cs);
      if !LooksUnsaved(last) {
        assert cs[..|cs| - 1 + 1] == cs;
        assert CountsMatch(last.save.value, cs[..|cs| - 1 + 1]);
        assert forall c: nat :: CountsOf(RestoredState(RestoreCycles(cs)), cs, c) == CountsOf(last.save.value, cs, c);
      } else if last.save.None? {
        RestoredExactly(front, last);
      } else {
        CommittedAtMost(front, last.client);
        CountsLast(front, last, last.client);
        assert !CountsOf(RestoredState(RestoreCycles(cs)), cs, last.client);
      }
    }
  }

  /** The state a message saves counts that message too. */
  lemma SaveCounts<M>(settings: Settings, cs: seq<Cycle>, s: State, m: Incoming<M>, at: nat)
    requires CountsMatch(s, cs) && at >= SavePoint(settings, m)
    ensures CountsMatch(StateAfter(s, m), cs + [CycleAt(settings, m, StateAfter(s, m), at)])
  {
    forall c: nat
      ensures CountsOf(StateAfter(s, m), cs + [CycleAt(settings, m, StateAfter(s, m), at)], c)
    {
      assert CountsOf(s, cs, c);
      CountsLast(cs, CycleAt(settings, m, StateAfter(s, m), at), c);
    }
  }

  lemma ReceiveCounts<M>(settings: Settings, r: Replica<M>, m: Incoming<M>)
    requires Counted(r)
    ensures Counted(Received(settings, r, m))
  {
    var state, at := StateAfter(r.memory.state, m), SavePoint(settings, m) + 1;
    OpsAt(settings, m, state);
    assert Ops(settings, m, state)[..at] == Ops(settings, m, state);
    PrefixOnDisk(settings, r.disk, m, state, at);
    SaveCounts(settings, r.disk.cycles, r.memory.state, m, at);
    StatesMatchLast(r.disk.cycles, CycleAt(settings, m, state, at));
  }

  lemma HandBackCounts<M>(settings: Settings, r: Replica<M>, m: Incoming<M>)
    requires Counted(r)
    ensures Counted(Started(settings, r, m))
  {
    var cs, cycle := r.disk.cycles, Cycle(m.id, m.client, 0, None, false, []);
    StatesMatchLast(cs, cycle);
    forall c: nat
      ensures CountsOf(Started(settings, r, m).memory.state, cs + [cycle], c)
    {
      assert CountsOf(r.memory.state, cs, c);
      CountsLast(cs, cycle, c);
    }
  }

  /** The log after a crash between the appends. */
  lemma CrashedCycles<M>(settings: Settings, r: Replica<M>, m: Incoming<M>, at: nat)
    requires Counted(r) && Possible(settings, r, Crash(m, at)) && at > 0
    ensures var r', cs := Step(settings, r, Crash(m, at)),
                          r.disk.cycles + [CycleAt(settings, m, StateAfter(r.memory.state, m), at)];
      && r'.disk.cycles == cs && r'.memory.state == RestoredState(RestoreCycles(cs))
      && ValidCycles(cs) && StatesMatch(cs)
  {
    var state := StateAfter(r.memory.state, m);
    var cycle := CycleAt(settings, m, state, at);
    PrefixOnDisk(settings, r.disk, m, state, at);
    if cycle.save.Some? {
      SaveCounts(settings, r.disk.cycles, r.memory.state, m, at);
    }
    StatesMatchLast(r.disk.cycles, cycle);
    hide StatesMatch, CountsMatch, RestoreCycles, RestoredState;
  }

  lemma CrashCountsExactly<M>(settings: Settings, r: Replica<M>, m: Incoming<M>, at: nat)
    requires Counted(r) && Possible(settings, r, Crash(m, at))
    ensures Counted(Step(settings, r, Crash(m, at))) <==> Separated(settings, r, Crash(m, at))
  {
    if at == 0 {
      assert Ops(settings, m, StateAfter(r.memory.state, m))[..0] == [];
      RestartCountsExactly(r.disk.cycles);
    } else {
      var cs, cycle := r.disk.cycles, CycleAt(settings, m, StateAfter(r.memory.state, m), at);
      CrashedCycles(settings, r, m, at);
      RestartCountsExactly(cs + [cycle]);
      assert (cs + [cycle])[..|cs|] == cs && (cs + [cycle])[|cs|] == cycle;
      hide StatesMatch, CountsMatch, RestoreCycles, RestoredState, Step, Possible, PendingSave, StateAfter;
    }
  }

  /** A message that an EOF callback sends is counted, but no save stands for it. */
  lemma CallbackMiscounts<M>(settings: Settings, r: Replica<M>, client: nat, message: Subject)
    requires Counted(r)
    ensures !Counted(Step(settings, r, Callback(client, message)))
  {
    var cs, r' := r.disk.cycles, Step(settings, r, Callback(client, message));
    assert CountsOf(r.memory.state, cs, client);
    if cs != [] {
      var front, last := cs[..|cs| - 1], cs[|cs| - 1];
      assert cs == front + [last] && r'.disk.cycles == front + [WithSent(last, message)];
      CountsLast(front, last, client);
      CountsLast(front, WithSent(last, message), client);
    }
    assert !CountsOf(r'.memory.state, r'.disk.cycles, client);
  }

  /** Each step keeps the counters right if and only if it is separated. */
  lemma StepCountsExactly<M>(settings: Settings, r: Replica<M>, h: Happening<M>)
    requires Counted(r) && Possible(settings, r, h)
    ensures Counted(Step(settings, r, h)) <==> Separated(settings, r, h)
  {
    match h
    case Receive(m) =>
      if !Dropped(settings, r, m) {
        ReceiveCounts(settings, r, m);
      }
    case HandBack(m) =>
      if !Dropped(settings, r, m) {
        HandBackCounts(settings, r, m);
      }
    case Callback(client, message) => CallbackMiscounts(settings, r, client, message);
    case Crash(m, at) => CrashCountsExactly(settings, r, m, at);
    case Restart => RestartCountsExactly(r.disk.cycles);
  }

  ghost predicate SeparatedRun<M>(settings: Settings, r: Replica<M>, hs: seq<Happening<M>>)
    decreases |hs|
  {
    hs == [] || (&& Possible(settings, r, hs[0]) && Separated(settings, r, hs[0])
                 && SeparatedRun(settings, Step(settings, r, hs[0]), hs[1..]))
  }

  ghost function Run<M>(settings: Settings, r: Replica<M>, hs: seq<Happening<M>>): Replica<M>
    requires SeparatedRun(settings, r, hs)
    decreases |hs|
  {
    if hs == [] then r else Run(settings, Step(settings, r, hs[0]), hs[1..])
  }

  /** Recovery refinement: in every run in which no crash of an unsaved message finds a
      save without its COMMIT, the counters in memory are, at all times, the numbers of
      SAVE DONE lines and of outputs they stand for, for every client. */
  lemma {:induction false} CountsInEveryRun<M>(settings: Settings, r: Replica<M>, hs: seq<Happening<M>>)
    requires Counted(r) && SeparatedRun(settings, r, hs)
    ensures Counted(Run(settings, r, hs))
    decreases |hs|
  {
    hide Counted, Separated, Step, Possible;
    if hs != [] {
      StepCountsExactly(settings, r, hs[0]);
      CountsInEveryRun(settings, Step(settings, r, hs[0]), hs[1..]);
    }
  }

  /** The counters are right in every state of the run. */
  ghost predicate AlwaysCounted<M>(settings: Settings, r: Replica<M>, hs: seq<Happening<M>>)
    decreases |hs|
  {
    Counted(r)
    && (hs == [] || (Possible(settings, r, hs[0]) && AlwaysCounted(settings, Step(settings, r, hs[0]), hs[1..])))
  }

  /** Whatever happens in a run that can happen at all: the counters are right all the way
      if and only if every step is separated when it comes. */
  lemma {:induction false} RunCountsExactly<M>(settings: Settings, r: Replica<M>, hs: seq<Happening<M>>)
    requires Counted(r) && PossibleRun(settings, r, hs)
    ensures AlwaysCounted(settings, r, hs) <==> SeparatedRun(settings, r, hs)
    decreases |hs|
  {
    hide Counted, Separated, Step, Possible;
    if hs != [] {
      var next := Step(settings, r, hs[0]);
      StepCountsExactly(settings, r, hs[0]);
      if Counted(next) {
        RunCountsExactly(settings, next, hs[1..]);
      } else {
        assert !AlwaysCounted(settings, next, hs[1..]);
      }
    }
  }

  /** A message interrupted before its COMMIT is a suspect after the restart. */
  lemma InterruptedIsSuspected<M>(settings: Settings, r: Replica<M>, m: Incoming<M>, at: nat)
    requires Possible(settings, r, Crash(m, at)) && 0 < at <= SavePoint(settings, m)
    ensures m.id in Get(Step(settings, r, Crash(m, at)).memory.state.duplicates, m.client, [])
  {
    PrefixOnDisk(settings, r.disk, m, StateAfter(r.memory.state, m), at);
  }

  /** Two crashes without a COMMIT between them: `m1` is saved but not committed when the
      first one comes, `m2` is not saved when the second one comes. The counters are wrong. */
  lemma SecondCrashLosesACount<M>(settings: Settings, r: Replica<M>, m1: Incoming<M>, m2: Incoming<M>, at: nat)
    requires Counted(r) && Possible(settings, r, Crash(m1, SavePoint(settings, m1)))
    requires var r1 := Step(settings, r, Crash(m1, SavePoint(settings, m1)));
      Possible(settings, r1, Crash(m2, at)) && 0 < at < SavePoint(settings, m2)
    ensures var r1 := Step(settings, r, Crash(m1, SavePoint(settings, m1)));
      var r2 := Step(settings, r1, Crash(m2, at));
      Counted(r1) && !CountsMatch(r2.memory.state, r2.disk.cycles)
  {
    var r1 := Step(settings, r, Crash(m1, SavePoint(settings, m1)));
    CrashCountsExactly(settings, r, m1, SavePoint(settings, m1));
    SavedIsPending(settings, r, m1);
    UnsavedCrashCounts(settings, r1, m2, at);
  }

  lemma SavedIsPending<M>(settings: Settings, r: Replica<M>, m: Incoming<M>)
    requires Possible(settings, r, Crash(m, SavePoint(settings, m)))
    ensures PendingSave(Step(settings, r, Crash(m, SavePoint(settings, m))).disk.cycles)
  {
    PrefixOnDisk(settings, r.disk, m, StateAfter(r.memory.state, m), SavePoint(settings, m));
  }

  lemma UnsavedCrashCounts<M>(settings: Settings, r: Replica<M>, m: Incoming<M>, at: nat)
    requires Counted(r) && Possible(settings, r, Crash(m, at)) && 0 < at < SavePoint(settings, m)
    ensures var r' := Step(settings, r, Crash(m, at));
      CountsMatch(r'.memory.state, r'.disk.cycles) <==> !PendingSave(r.disk.cycles)
  {
    var state := StateAfter(r.memory.state, m);
    PrefixOnDisk(settings, r.disk, m, state, at);
    RestoredExactly(r.disk.cycles, CycleAt(settings, m, state, at));
  }
}
