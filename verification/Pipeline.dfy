/**
 A chain of queue stages. What one stage publishes arrives at the next, and the
 EOF callback of its deciding replica sends the next stage's EOF. Only the first
 stage has an environment to trust; every later stage gets what it relies on
 from the stage before.
 */
module Pipeline {
  import opened Sequences
  import opened Messages
  import opened EofRing
  import opened EofStage
  import opened EofSafety

  datatype PipeEvent = PipeEvent(stage: nat, event: Event)

  predicate ValidChain(ps: seq<Params>) {
    && (forall k :: 0 <= k < |ps| ==> ValidParams(ps[k]) && !ps[k].topic)
    && (forall k :: 0 <= k < |ps| - 1 ==> ps[k + 1].ids == ps[k].emits)
  }

  function Start(ps: seq<Params>): seq<Stage> {
    seq(|ps|, k requires 0 <= k < |ps| => Init(ps[k]))
  }

  /** Arrivals and EOFs come from outside at the first stage only. */
  predicate PipeEnabled(ps: seq<Params>, ss: seq<Stage>, e: PipeEvent) {
    && e.stage < |ss| == |ps|
    && Enabled(ps[e.stage], ss[e.stage], e.event)
    && (e.event.Arrive? || e.event.EofArrives? ==> e.stage == 0)
  }

  /** What stage k's event makes happen at stage k + 1. */
  function Passes(p: Params, st: Stage, ev: Event): Option<Event>
    requires Enabled(p, st, ev)
  {
    match ev
    case Deliver(_, d, outcome) =>
      if Publishes(outcome) && d.id in p.emits then Some(Arrive(d.id)) else None
    case TokenHop(i) =>
      var h := Handle(ConfigOf(p, i), st.views[i], st.token.value);
      if h.verdict.Some? then Some(EofArrives(SendEof(h.view))) else None
    case _ => None
  }

  ghost predicate PipeHonest(ps: seq<Params>, ss: seq<Stage>, e: PipeEvent)
    requires PipeEnabled(ps, ss, e)
  {
    e.stage == 0 ==> Honest(ps[0], ss[0], e.event)
  }

  /** The state of the next stage after what is passed on to it. */
  ghost predicate Takes(q: Params, next: Stage, passed: Option<Event>, next': Stage) {
    match passed
    case None => next' == next
    case Some(ev) => Enabled(q, next, ev) && next' == Next(q, next, ev)
  }

  /** One event at one stage, and what it makes happen at the stage behind it. */
  ghost predicate PipeStep(ps: seq<Params>, ss: seq<Stage>, e: PipeEvent, ss': seq<Stage>)
    requires PipeEnabled(ps, ss, e)
  {
    var k := e.stage;
    && |ss'| == |ss|
    && ss'[k] == Next(ps[k], ss[k], e.event)
    && (k + 1 < |ss| ==> Takes(ps[k + 1], ss[k + 1], Passes(ps[k], ss[k], e.event), ss'[k + 1]))
    && (forall j :: 0 <= j < |ss| && j != k && j != k + 1 ==> ss'[j] == ss[j])
  }

  /** A run: states and the events between them; the outside keeps its word to the first stage. */
  ghost predicate PipeRun(ps: seq<Params>, states: seq<seq<Stage>>, events: seq<PipeEvent>) {
    && |states| == |events| + 1
    && states[0] == Start(ps)
    && forall t :: 0 <= t < |events| ==>
         && PipeEnabled(ps, states[t], events[t])
         && PipeHonest(ps, states[t], events[t])
         && PipeStep(ps, states[t], events[t], states[t + 1])
  }

  /** Stage k + 1 has received exactly what stage k has sent. */
  predicate Linked(a: Stage, b: Stage) {
    b.arrived == a.emitted && b.feed == a.verdict
  }

  /** The EOF of a callback that first sends and counts what finish_processing returned. */
  function CallbackEof(v: View, outputs: nat): Account {
    SendEof(v.(sent := v.sent + outputs))
  }

  /** The sender's fields hold the verdict when the EOF callback reads them, and only a
      token that is not finishing yields one; what the callback sends itself is added. */
  lemma VerdictIsAnnounced(p: Params, i: nat, v: View, m: Message)
    requires IsToken(m)
    ensures var h := Handle(ConfigOf(p, i), v, m);
      h.verdict.Some? ==> !m.EofFinish? && h.ack && SendEof(h.view) == h.verdict.value
    ensures var h := Handle(ConfigOf(p, i), v, m);
      h.verdict.Some? ==> forall outputs: nat ::
        CallbackEof(h.view, outputs) == Account(h.verdict.value.sent + outputs, h.verdict.value.duplicates)
  {
  }

  /** What a stage passes on is what its own counters record. */
  lemma PassedIsRecorded(p: Params, st: Stage, ev: Event)
    requires Enabled(p, st, ev)
    requires st.token.Some? ==> (st.token.value.EofFinish? <==> st.verdict.Some?)
    ensures var st', passed := Next(p, st, ev), Passes(p, st, ev);
      match passed
      case None => st'.emitted == st.emitted && st'.verdict == st.verdict
      case Some(Arrive(x)) => st'.emitted == st.emitted + multiset{x} && st'.verdict == st.verdict
      case Some(EofArrives(a)) => st'.emitted == st.emitted && st.verdict.None? && st'.verdict == Some(a)
      case _ => false
  {
    if ev.TokenHop? {
      VerdictIsAnnounced(p, ev.replica, st.views[ev.replica], st.token.value);
    }
  }

  /** Every stage is an honest environment for the next one. */
  lemma PassedIsHonest(p: Params, st: Stage, ev: Event, q: Params, next: Stage)
    requires ValidParams(p) && Reachable(p, st) && Enabled(p, st, ev) && Honest(p, st, ev)
    requires q.ids == p.emits && Linked(st, next)
    requires Passes(p, st, ev).Some?
    ensures var passed := Passes(p, st, ev).value;
      Enabled(q, next, passed) && Honest(q, next, passed) && Linked(Next(p, st, ev), Next(q, next, passed))
  {
    ReachableFacts(p, st);
    ReachableNext(p, st, ev);
    ReachableFacts(p, Next(p, st, ev));
    PassedIsRecorded(p, st, ev);
  }

  /** A stage and its successor stay linked, and both stay in states they could reach alone. */
  lemma PairStep(p: Params, st: Stage, ev: Event, q: Params, next: Stage, next': Stage)
    requires ValidParams(p) && Reachable(p, st) && Enabled(p, st, ev) && Honest(p, st, ev)
    requires ValidParams(q) && Reachable(q, next) && q.ids == p.emits && Linked(st, next)
    requires Takes(q, next, Passes(p, st, ev), next')
    ensures Reachable(q, next') && Linked(Next(p, st, ev), next')
    ensures next'.emitted == next.emitted && next'.verdict == next.verdict
  {
    var passed := Passes(p, st, ev);
    ReachableFacts(p, st);
    PassedIsRecorded(p, st, ev);
    if passed.Some? {
      PassedIsHonest(p, st, ev, q, next);
      ReachableNext(q, next, passed.value);
      KeepsSent(q, next, passed.value);
    }
  }

  /** Receiving publishes nothing and decides nothing. */
  lemma KeepsSent(p: Params, st: Stage, ev: Event)
    requires Enabled(p, st, ev) && (ev.Arrive? || ev.EofArrives?)
    ensures Next(p, st, ev).emitted == st.emitted && Next(p, st, ev).verdict == st.verdict
  {
  }

  /** Working on what has been received receives nothing. */
  lemma KeepsReceived(p: Params, st: Stage, ev: Event)
    requires Enabled(p, st, ev)
    ensures !ev.Arrive? && !ev.EofArrives? ==> Next(p, st, ev).arrived == st.arrived && Next(p, st, ev).feed == st.feed
  {
  }

  /** The event happens here. */
  lemma HereStep(ps: seq<Params>, ss: seq<Stage>, e: PipeEvent, ss': seq<Stage>)
    requires PipeEnabled(ps, ss, e) && PipeHonest(ps, ss, e) && PipeStep(ps, ss, e, ss')
    requires Reachable(ps[e.stage], ss[e.stage])
    ensures Reachable(ps[e.stage], ss'[e.stage])
  {
    HonestHere(ps, ss, e);
    ReachableNext(ps[e.stage], ss[e.stage], e.event);
  }

  /** The event happens at the stage before k. */
  lemma BehindStep(ps: seq<Params>, ss: seq<Stage>, e: PipeEvent, ss': seq<Stage>, k: nat)
    requires ValidChain(ps) && k == e.stage + 1 < |ss|
    requires PipeEnabled(ps, ss, e) && PipeHonest(ps, ss, e) && PipeStep(ps, ss, e, ss')
    requires Reachable(ps[k - 1], ss[k - 1]) && Reachable(ps[k], ss[k]) && Linked(ss[k - 1], ss[k])
    ensures Reachable(ps[k], ss'[k]) && Linked(ss'[k - 1], ss'[k])
  {
    HonestHere(ps, ss, e);
    PairStep(ps[k - 1], ss[k - 1], e.event, ps[k], ss[k], ss'[k]);
  }

  /** What a stage takes from the one before changes nothing in what it has sent. */
  lemma TakenSendsNothing(ps: seq<Params>, ss: seq<Stage>, e: PipeEvent, ss': seq<Stage>)
    requires e.stage + 1 < |ss|
    requires PipeEnabled(ps, ss, e) && PipeStep(ps, ss, e, ss')
    ensures ss'[e.stage + 1].emitted == ss[e.stage + 1].emitted
    ensures ss'[e.stage + 1].verdict == ss[e.stage + 1].verdict
  {
    var k := e.stage + 1;
    var passed := Passes(ps[k - 1], ss[k - 1], e.event);
    assert Takes(ps[k], ss[k], passed, ss'[k]);
    PassesReceipts(ps[k - 1], ss[k - 1], e.event);
    hide Passes, Next, Enabled, PipeStep, PipeEnabled;
    if passed.Some? {
      KeepsSent(ps[k], ss[k], passed.value);
    }
  }

  lemma PassesReceipts(p: Params, st: Stage, ev: Event)
    requires Enabled(p, st, ev)
    ensures var passed := Passes(p, st, ev);
      passed.Some? ==> passed.value.Arrive? || passed.value.EofArrives?
  {
    hide Handle;
  }

  /** Inner stages see no outside events, so there is nothing to be honest about. */
  lemma HonestHere(ps: seq<Params>, ss: seq<Stage>, e: PipeEvent)
    requires PipeEnabled(ps, ss, e) && PipeHonest(ps, ss, e)
    ensures Honest(ps[e.stage], ss[e.stage], e.event)
  {
  }

  /** In every state of a run, stage k is in a state it could reach alone in an honest
      environment, and it has received exactly what the stage before has sent. */
  ghost predicate StageOk(ps: seq<Params>, ss: seq<Stage>, k: nat)
    requires k < |ss| == |ps|
  {
    Reachable(ps[k], ss[k]) && (k > 0 ==> Linked(ss[k - 1], ss[k]))
  }

  /** The event and what it passes on are at other stages: state and link stay. */
  lemma ElsewhereStep(ps: seq<Params>, ss: seq<Stage>, e: PipeEvent, ss': seq<Stage>, k: nat)
    requires k < |ps| && e.stage != k && e.stage + 1 != k
    requires PipeEnabled(ps, ss, e) && PipeStep(ps, ss, e, ss')
    requires k > 0 ==> Linked(ss[k - 1], ss[k])
    ensures ss'[k] == ss[k]
    ensures k > 0 ==> Linked(ss'[k - 1], ss'[k])
  {
    hide Next, Enabled, Takes, Passes;
    if e.stage + 2 == k {
      TakenSendsNothing(ps, ss, e, ss');
    }
  }

  lemma HereLink(ps: seq<Params>, ss: seq<Stage>, e: PipeEvent, ss': seq<Stage>)
    requires PipeEnabled(ps, ss, e) && PipeStep(ps, ss, e, ss')
    requires e.stage > 0 && Linked(ss[e.stage - 1], ss[e.stage])
    ensures Linked(ss'[e.stage - 1], ss'[e.stage])
  {
    KeepsReceived(ps[e.stage], ss[e.stage], e.event);
  }

  lemma StepStage(ps: seq<Params>, ss: seq<Stage>, e: PipeEvent, ss': seq<Stage>, k: nat)
    requires ValidChain(ps) && k < |ps| == |ss'|
    requires PipeEnabled(ps, ss, e) && PipeHonest(ps, ss, e) && PipeStep(ps, ss, e, ss')
    requires Reachable(ps[k], ss[k])
    requires k > 0 ==> Reachable(ps[k - 1], ss[k - 1]) && Linked(ss[k - 1], ss[k])
    ensures Reachable(ps[k], ss'[k])
    ensures k > 0 ==> Linked(ss'[k - 1], ss'[k])
  {
    hide ValidChain, PipeHonest, PipeStep, Reachable, Linked, Enabled;
    if e.stage == k {
      HereStep(ps, ss, e, ss');
      if k > 0 {
        HereLink(ps, ss, e, ss');
      }
    } else if e.stage + 1 == k {
      BehindStep(ps, ss, e, ss', k);
    } else {
      ElsewhereStep(ps, ss, e, ss', k);
    }
  }

  lemma {:induction false} EveryStageOk(ps: seq<Params>, states: seq<seq<Stage>>, events: seq<PipeEvent>,
                                       t: nat, k: nat)
    requires ValidChain(ps) && PipeRun(ps, states, events) && t <= |events| && k < |ps|
    ensures |states[t]| == |ps| && StageOk(ps, states[t], k)
    decreases t, k
  {
    if t == 0 {
      ReachableInit(ps[k]);
    } else {
      assert PipeStep(ps, states[t - 1], events[t - 1], states[t - 1 + 1]);
      EveryStageOk(ps, states, events, t - 1, k);
      if k > 0 {
        EveryStageOk(ps, states, events, t - 1, k - 1);
      }
      StepStage(ps, states[t - 1], events[t - 1], states[t], k);
    }
  }

  /** Every stage keeps its guarantee, and its EOF came from the stage before. */
  lemma StageFacts(ps: seq<Params>, states: seq<seq<Stage>>, events: seq<PipeEvent>, t: nat, k: nat)
    requires ValidChain(ps) && PipeRun(ps, states, events) && t <= |events| && k < |ps|
    ensures |states[t]| == |ps|
    ensures Guarantee(ps[k], states[t][k])
    ensures states[t][k].verdict.Some? ==> states[t][k].feed.Some?
    ensures k > 0 ==> Linked(states[t][k - 1], states[t][k])
  {
    EveryStageOk(ps, states, events, t, k);
    ReachableFacts(ps[k], states[t][k]);
  }

  /** A stage that has closed, and the one before it. */
  lemma ClosedStage(ps: seq<Params>, states: seq<seq<Stage>>, events: seq<PipeEvent>, t: nat, k: nat)
    requires ValidChain(ps) && PipeRun(ps, states, events) && t <= |events| && k < |ps|
    requires |states[t]| == |ps| && states[t][k].verdict.Some?
    ensures forall x :: x in ps[k].ids ==> SavedSomewhere(ps[k], states[t][k], x)
    ensures states[t][k].verdict.value.sent == |ps[k].emits|
    ensures k > 0 ==> states[t][k - 1].verdict.Some? && states[t][k].feed == states[t][k - 1].verdict
  {
    StageFacts(ps, states, events, t, k);
    hide ValidChain, PipeRun, SavedSomewhere;
  }

  /** EOF safety of the whole chain: in every state of every run, when stage k has closed,
      so has every stage before it; each of them has processed every message sent to it
      and announced the exact number of its distinct outputs, which is the target of the
      stage after it. */
  lemma {:induction false} ChainSafety(ps: seq<Params>, states: seq<seq<Stage>>, events: seq<PipeEvent>, t: nat, k: nat)
    requires ValidChain(ps) && PipeRun(ps, states, events) && t <= |events| && k < |ps|
    requires |states[t]| == |ps| && states[t][k].verdict.Some?
    ensures forall j :: 0 <= j <= k ==>
      && states[t][j].verdict.Some?
      && (forall x :: x in ps[j].ids ==> SavedSomewhere(ps[j], states[t][j], x))
      && states[t][j].verdict.value.sent == |ps[j].emits|
      && (j > 0 ==> states[t][j].feed == states[t][j - 1].verdict)
  {
    ClosedStage(ps, states, events, t, k);
    hide ValidChain, PipeRun, SavedSomewhere;
    if k > 0 {
      ChainSafety(ps, states, events, t, k - 1);
    }
  }
}
