/**
 A whole stage of real replicas: N recovery machines with their logs, the broker
 queue they share, and the EOF token. Every run of it is a run of the stage machine,
 so EOF safety holds of the records on the replicas' disks, with crashes at any
 append and at any distance from the last COMMIT.
 */
module Cluster {
  import opened Sequences
  import opened Messages
  import opened EofRing
  import opened EofStage
  import opened EofSafety
  import opened Logs
  import opened Recovery
  import opened Refinement

  datatype Cluster<M> = Cluster(replicas: seq<Replica<M>>, queue: multiset<Delivery>, token: Option<Message>,
                                arrived: multiset<nat>, emitted: multiset<nat>,
                                feed: Option<Account>, verdict: Option<Account>)

  /** `published` says whether an interrupted message had been sent on, `acked` whether the
      broker got the ACK of a message that was saved. */
  datatype Happens<M> =
    | Sent(id: nat)                                                    // the stage before sends a message
    | Handles(i: nat, d: Delivery, h: Happening<M>, published: bool, acked: bool)
    | Aside(i: nat, h: Happening<M>)                                   // a restart, or another client's message
    | HandedBack(d: Delivery)                                          // unhandled, when its replica crashed
    | Announced(a: Account)
    | Hops(i: nat)

  function Empty<M>(): Replica<M> {
    Replica(Disk([], map[], map[]), Memory(EMPTY_STATE, map[], map[]))
  }

  function Start<M>(p: Params): Cluster<M> {
    Cluster(seq(p.n, _ => Empty()), multiset{}, None, multiset{}, multiset{}, None, None)
  }

  predicate IsFor<M>(p: Params, m: Incoming<M>, d: Delivery) {
    m.client == p.client && m.id == d.id && m.redelivered == d.redelivered && m.sends == Sends(p, d.id)
  }

  /** The happening is about a message. */
  predicate Delivers<M>(h: Happening<M>) {
    h.Receive? || h.HandBack? || h.Crash?
  }

  predicate CanHappen<M>(p: Params, cl: Cluster<M>, e: Happens<M>) {
    match e
    case Sent(_) => true
    case Handles(i, d, h, _, _) =>
      i < |cl.replicas| && d in cl.queue && Delivers(h) && IsFor(p, h.m, d) && Possible(PLAIN, cl.replicas[i], h)
    case Aside(i, h) =>
      i < |cl.replicas| && (h.Restart? || (Delivers(h) && h.m.client != p.client)) && Possible(PLAIN, cl.replicas[i], h)
    case HandedBack(d) => d in cl.queue
    case Announced(_) => cl.feed.None?
    case Hops(i) => i < |cl.replicas| && cl.token.Some? && IsToken(cl.token.value)
  }

  /** Does the broker hand the message out again? */
  predicate ComesBack<M>(h: Happening<M>, acked: bool) {
    match h
    case HandBack(_) => true
    case Crash(m, at) => at < SavePoint(PLAIN, m) || (at == SavePoint(PLAIN, m) && !acked)
    case _ => false
  }

  predicate GoesOut<M>(h: Happening<M>, published: bool) {
    match h
    case Receive(_) => true
    case Crash(m, at) => at >= SavePoint(PLAIN, m) || (at > 0 && published)
    case _ => false
  }

  /** The deciding replica's sender counts what the verdict says. */
  function Overwritten<M>(r: Replica<M>, c: nat, verdict: Option<Account>): Replica<M> {
    if verdict.None? then r
    else r.(memory := r.memory.(state := r.memory.state.(sent := r.memory.state.sent[c := verdict.value.sent])))
  }

  function Then<M>(p: Params, cl: Cluster<M>, e: Happens<M>): Cluster<M>
    requires CanHappen(p, cl, e)
  {
    match e
    case Sent(id) =>
      cl.(queue := cl.queue + multiset{Delivery(id, false)}, arrived := cl.arrived + multiset{id})
    case Handles(i, d, h, published, acked) =>
      cl.(replicas := cl.replicas[i := Step(PLAIN, cl.replicas[i], h)],
          queue := cl.queue - multiset{d}
            + (if ComesBack(h, acked) then multiset{Delivery(d.id, true)} else multiset{}),
          emitted := cl.emitted + (if GoesOut(h, published) && d.id in p.emits then multiset{d.id} else multiset{}))
    case Aside(i, h) => cl.(replicas := cl.replicas[i := Step(PLAIN, cl.replicas[i], h)])
    case HandedBack(d) => cl.(queue := cl.queue - multiset{d} + multiset{Delivery(d.id, true)})
    case Announced(a) => cl.(feed := Some(a), token := Some(Eof(p.client, a.sent, a.duplicates)))
    case Hops(i) =>
      var hop := Handle(ConfigOf(p, i), ViewOf(cl.replicas[i], p.client), cl.token.value);
      if !hop.ack then cl
      else
        cl.(replicas := cl.replicas[i := Overwritten(cl.replicas[i], p.client, hop.verdict)],
            token := if hop.out == [] then None else Some(hop.out[0]),
            verdict := if hop.verdict.Some? then hop.verdict else cl.verdict)
  }

  /** What the cluster relies on, as the stage machine does. */
  ghost predicate Fair<M>(p: Params, cl: Cluster<M>, e: Happens<M>) {
    match e
    case Sent(id) =>
      id in p.ids && (cl.feed.Some? && cl.arrived[id] > 0 ==> id in cl.feed.value.duplicates)
    case Announced(a) =>
      a.sent == |p.ids| && forall x :: x in cl.arrived && cl.arrived[x] >= 2 ==> x in a.duplicates
    case _ => true
  }

  ghost predicate FairRun<M>(p: Params, cl: Cluster<M>, es: seq<Happens<M>>)
    decreases |es|
  {
    es == [] || (CanHappen(p, cl, es[0]) && Fair(p, cl, es[0]) && FairRun(p, Then(p, cl, es[0]), es[1..]))
  }

  ghost function After<M>(p: Params, cl: Cluster<M>, es: seq<Happens<M>>): Cluster<M>
    requires FairRun(p, cl, es)
    decreases |es|
  {
    if es == [] then cl else After(p, Then(p, cl, es[0]), es[1..])
  }

  // ---------- the stage machine beside it ----------

  ghost predicate Related<M>(p: Params, cl: Cluster<M>, st: Stage) {
    && |cl.replicas| == |st.views| == |st.backups|
    && (forall i :: 0 <= i < |cl.replicas| ==> Matches(cl.replicas[i], p.client, NodeOf(st, i)))
    && cl.queue == st.queue && cl.token == st.token && cl.arrived == st.arrived && cl.emitted == st.emitted
    && cl.feed == st.feed && cl.verdict == st.verdict
  }

  /** The events of the stage machine that do the same. */
  function Events<M>(e: Happens<M>): seq<Event>
    requires (e.Handles? ==> Delivers(e.h)) && (e.Aside? ==> !e.h.Callback?)
  {
    match e
    case Sent(id) => [Arrive(id)]
    case Handles(i, d, Receive(_), _, _) => [Deliver(i, d, Done)]
    case Handles(i, d, HandBack(_), _, _) => [Deliver(i, d, NotReady)]
    case Handles(i, d, Crash(m, at), published, acked) =>
      if at == 0 then [Event.Restart(i), Redeliver(d)]
      else if at <= SavePoint(PLAIN, m) then [Deliver(i, d, OutcomeOf(m, at, published, acked))]
      else [Deliver(i, d, Done), Event.Restart(i)]
    case Aside(i, Restart) => [Event.Restart(i)]
    case Aside(i, Receive(_)) => [OtherClient(i, Done)]
    case Aside(i, HandBack(_)) => [OtherClient(i, NotReady)]
    case Aside(i, Crash(m, at)) =>
      if at == 0 then [Event.Restart(i)]
      else if at <= SavePoint(PLAIN, m) then [OtherClient(i, OutcomeOf(m, at, false, false))]
      else [OtherClient(i, Done), Event.Restart(i)]
    case HandedBack(d) => [Redeliver(d)]
    case Announced(a) => [EofArrives(a)]
    case Hops(i) => [TokenHop(i)]
  }

  lemma RunTwo(p: Params, st: Stage, a: Event, b: Event)
    requires Enabled(p, st, a) && Honest(p, st, a)
    requires Enabled(p, Next(p, st, a), b) && Honest(p, Next(p, st, a), b)
    ensures HonestRun(p, st, [a, b]) && Run(p, st, [a, b]) == Next(p, Next(p, st, a), b)
  {
    hide Next, Enabled, Honest;
    assert [a, b][1..] == [b];
    SingleRun(p, Next(p, st, a), b);
  }

  /** One replica and its abstract counterpart move together; the others stay. */
  lemma OneMoves<M>(p: Params, cl: Cluster<M>, st: Stage, i: nat, r: Replica<M>, n: Node, cl': Cluster<M>, st': Stage)
    requires Related(p, cl, st) && i < |cl.replicas| && Matches(r, p.client, n)
    requires cl'.replicas == cl.replicas[i := r]
    requires st'.views == st.views[i := n.view] && st'.backups == st.backups[i := n.backup]
    requires cl'.queue == st'.queue && cl'.token == st'.token && cl'.arrived == st'.arrived
    requires cl'.emitted == st'.emitted && cl'.feed == st'.feed && cl'.verdict == st'.verdict
    ensures Related(p, cl', st')
  {
    hide Matches;
    forall j | 0 <= j < |cl'.replicas|
      ensures Matches(cl'.replicas[j], p.client, NodeOf(st', j))
    {
      assert Matches(cl.replicas[j], p.client, NodeOf(st, j));
      assert i == j ==> NodeOf(st', j) == n;
    }
  }

  /** The outcome that the stage machine gives to the happening. */
  function Ending<M>(h: Happening<M>, published: bool, acked: bool): Outcome
    requires Delivers(h)
  {
    match h
    case Receive(_) => Done
    case HandBack(_) => NotReady
    case Crash(m, at) => OutcomeOf(m, at, published, acked)
  }

  /** Started and ended in one delivery, or in one delivery and a restart. */
  lemma HandlesNode<M>(n: Node, c: nat, h: Happening<M>, published: bool, acked: bool)
    requires Delivers(h) && (h.Crash? ==> h.at > 0)
    ensures NodeStep(n, c, h)
         == if h.Crash? && h.at > SavePoint(PLAIN, h.m) then Restarted(NodeWith(n, c, h.m, Done))
            else NodeWith(n, c, h.m, Ending(h, published, acked))
  {
  }

  /** The delivered message is one of the client, so the abstract replica handles it. */
  lemma HandlesMatches<M>(p: Params, r: Replica<M>, n: Node, d: Delivery, h: Happening<M>, published: bool, acked: bool)
    requires Matches(r, p.client, n) && Possible(PLAIN, r, h)
    requires Delivers(h) && IsFor(p, h.m, d) && (h.Crash? ==> h.at > 0)
    ensures var n' := NodeAfter(n, d.id, d.redelivered, Sends(p, d.id), Ending(h, published, acked));
      Matches(Step(PLAIN, r, h), p.client, if h.Crash? && h.at > SavePoint(PLAIN, h.m) then Restarted(n') else n')
  {
    HandlesNode(n, p.client, h, published, acked);
    StepRefines(r, h, p.client, n);
    hide Matches, Step, Possible, NodeStep, NodeAfter, Restarted, OutcomeOf;
  }

  /** What the broker sees of a handled message. */
  lemma HandlesBroker<M>(p: Params, h: Happening<M>, d: Delivery, published: bool, acked: bool)
    requires Delivers(h) && (h.Crash? ==> h.at > 0)
    ensures var outcome := Ending(h, published, acked);
      && (if ComesBack(h, acked) then multiset{Delivery(d.id, true)} else multiset{}) == PutBack(d, outcome)
      && (if GoesOut(h, published) && d.id in p.emits then multiset{d.id} else multiset{}) == Output(p, d, outcome)
  {
  }

  lemma HandlesRefines<M>(p: Params, cl: Cluster<M>, st: Stage, e: Happens<M>)
    requires Related(p, cl, st) && CanHappen(p, cl, e) && e.Handles?
    requires e.h.Crash? ==> 0 < e.h.at <= SavePoint(PLAIN, e.h.m)
    ensures HonestRun(p, st, Events(e)) && Related(p, Then(p, cl, e), Run(p, st, Events(e)))
  {
    hide Matches, Possible, NodeAfter, Step, PutBack, Output, ComesBack, GoesOut, SavePoint;
    var i, d, h, outcome := e.i, e.d, e.h, Ending(e.h, e.published, e.acked);
    assert Matches(cl.replicas[i], p.client, NodeOf(st, i));
    HandlesMatches(p, cl.replicas[i], NodeOf(st, i), d, h, e.published, e.acked);
    HandlesBroker(p, h, d, e.published, e.acked);
    assert Events(e) == [Deliver(i, d, outcome)];
    SingleRun(p, st, Deliver(i, d, outcome));
    var cl', st' := Then(p, cl, e), Next(p, st, Deliver(i, d, outcome));
    hide Related;
    OneMoves(p, cl, st, i, Step(PLAIN, cl.replicas[i], h),
             NodeAfter(NodeOf(st, i), d.id, d.redelivered, Sends(p, d.id), outcome), cl', st');
  }

  /** A delivery and a restart of its replica, in the stage machine. */
  lemma DeliverAndRestart(p: Params, st: Stage, i: nat, d: Delivery)
    requires i < |st.views| == |st.backups| && d in st.queue
    ensures var n := Restarted(NodeAfter(NodeOf(st, i), d.id, d.redelivered, Sends(p, d.id), Done));
      var evs := [Deliver(i, d, Done), Event.Restart(i)];
      && HonestRun(p, st, evs)
      && Run(p, st, evs) == WithNode(st, i, n).(queue := st.queue - multiset{d} + PutBack(d, Done),
                                                emitted := st.emitted + Output(p, d, Done))
  {
    hide NodeAfter, PutBack, Output, Restarted;
    RunTwo(p, st, Deliver(i, d, Done), Event.Restart(i));
  }

  /** A crash behind the COMMIT is a finished message and a restart. */
  lemma LateCrashRefines<M>(p: Params, cl: Cluster<M>, st: Stage, e: Happens<M>)
    requires Related(p, cl, st) && CanHappen(p, cl, e) && e.Handles? && e.h.Crash? && e.h.at > SavePoint(PLAIN, e.h.m)
    ensures HonestRun(p, st, Events(e)) && Related(p, Then(p, cl, e), Run(p, st, Events(e)))
  {
    hide Matches, Possible, NodeAfter, Step, PutBack, Output, ComesBack, GoesOut, Restarted, SavePoint, HonestRun, Run;
    var i, d, h := e.i, e.d, e.h;
    assert Matches(cl.replicas[i], p.client, NodeOf(st, i));
    assert Ending(h, e.published, e.acked) == Done;
    hide Ending;
    HandlesMatches(p, cl.replicas[i], NodeOf(st, i), d, h, e.published, e.acked);
    HandlesBroker(p, h, d, e.published, e.acked);
    DeliverAndRestart(p, st, i, d);
    var n := Restarted(NodeAfter(NodeOf(st, i), d.id, d.redelivered, Sends(p, d.id), Done));
    var cl', st' := Then(p, cl, e), Run(p, st, [Deliver(i, d, Done), Event.Restart(i)]);
    hide Related;
    OneMoves(p, cl, st, i, Step(PLAIN, cl.replicas[i], h), n, cl', st');
  }

  /** A crash before START is a restart, and the broker hands the message back. */
  lemma EarlyCrashRefines<M>(p: Params, cl: Cluster<M>, st: Stage, e: Happens<M>)
    requires Related(p, cl, st) && CanHappen(p, cl, e) && e.Handles? && e.h.Crash? && e.h.at == 0
    ensures HonestRun(p, st, Events(e)) && Related(p, Then(p, cl, e), Run(p, st, Events(e)))
  {
    var i, d, h := e.i, e.d, e.h;
    StepRefines(cl.replicas[i], h, p.client, NodeOf(st, i));
    assert NodeStep(NodeOf(st, i), p.client, h) == Restarted(NodeOf(st, i));
    hide NodeStep, Matches, Step, Possible, Restarted;
    var a, b := Event.Restart(i), Redeliver(d);
    RunTwo(p, st, a, b);
    OneMoves(p, cl, st, i, Step(PLAIN, cl.replicas[i], h), Restarted(NodeOf(st, i)),
             Then(p, cl, e), Next(p, Next(p, st, a), b));
  }

  lemma AsideRefines<M>(p: Params, cl: Cluster<M>, st: Stage, e: Happens<M>)
    requires Related(p, cl, st) && CanHappen(p, cl, e) && e.Aside?
    requires e.h.Crash? ==> e.h.at <= SavePoint(PLAIN, e.h.m)
    ensures HonestRun(p, st, Events(e)) && Related(p, Then(p, cl, e), Run(p, st, Events(e)))
  {
    var i, h := e.i, e.h;
    var n := NodeStep(NodeOf(st, i), p.client, h);
    StepRefines(cl.replicas[i], h, p.client, NodeOf(st, i));
    var ev := Events(e)[0];
    assert Events(e) == [ev];
    assert Next(p, st, ev) == WithNode(st, i, n);
    hide NodeStep, Matches, Step, Possible, Restarted, NodeAside, Next;
    SingleRun(p, st, ev);
    OneMoves(p, cl, st, i, Step(PLAIN, cl.replicas[i], h), n, Then(p, cl, e), Next(p, st, ev));
  }

  lemma LateAsideRefines<M>(p: Params, cl: Cluster<M>, st: Stage, e: Happens<M>)
    requires Related(p, cl, st) && CanHappen(p, cl, e) && e.Aside? && e.h.Crash? && e.h.at > SavePoint(PLAIN, e.h.m)
    ensures HonestRun(p, st, Events(e)) && Related(p, Then(p, cl, e), Run(p, st, Events(e)))
  {
    hide Matches, Step, Possible, Restarted, NodeAside, SavePoint;
    var i, h := e.i, e.h;
    assert Matches(cl.replicas[i], p.client, NodeOf(st, i));
    var n := NodeAside(NodeOf(st, i), Done);
    StepRefines(cl.replicas[i], h, p.client, NodeOf(st, i));
    assert NodeStep(NodeOf(st, i), p.client, h) == Restarted(n);
    hide NodeStep;
    var a, b := OtherClient(i, Done), Event.Restart(i);
    var st1 := Next(p, st, a);
    assert NodeOf(st1, i) == n;
    RunTwo(p, st, a, b);
    var st2 := Next(p, st1, b);
    assert st2.views == st.views[i := Restarted(n).view] && st2.backups == st.backups[i := Restarted(n).backup];
    OneMoves(p, cl, st, i, Step(PLAIN, cl.replicas[i], h), Restarted(n), Then(p, cl, e), st2);
  }

  /** The same token, answer and verdict, and the same view but for what would be announced. */
  predicate SameHop(v: View, a: Hop, b: Hop) {
    && a.out == b.out && a.ack == b.ack && a.verdict == b.verdict
    && a.view.log == v.log && a.view.received == v.received && a.view.duplicates == v.duplicates
    && a.view.sent == (if a.verdict.Some? then a.verdict.value.sent else v.sent)
  }

  lemma AggregationIgnores(cfg: Config, v: View, m: Message)
    requires m.EofAggregation? && cfg.hasSender
    ensures SameHop(v, HandleAggregation(cfg, v, m), HandleAggregation(cfg, Forget(v), m))
  {
    hide CountDuplicates, Search;
  }

  lemma DiscoveryIgnores(cfg: Config, v: View, m: Message)
    requires m.EofDiscovery? && cfg.hasSender
    ensures SameHop(v, HandleDiscovery(cfg, v, m), HandleDiscovery(cfg, Forget(v), m))
  {
    AggregationIgnores(cfg, v, ToAggregation(UpdateDiscovery(cfg, v, m)));
    hide HandleAggregation;
  }

  /** A token is handled the same whatever the sender would announce. */
  lemma AnnouncedIsIgnored(cfg: Config, v: View, m: Message)
    requires IsToken(m) && cfg.hasSender
    ensures SameHop(v, Handle(cfg, v, m), Handle(cfg, Forget(v), m))
  {
    match m
    case Eof(_, _, _) => DiscoveryIgnores(cfg, v, ToDiscovery(m)); hide HandleDiscovery;
    case EofDiscovery(_, _, _, _, _, _, _) => DiscoveryIgnores(cfg, v, m); hide HandleDiscovery;
    case EofAggregation(_, _, _, _, _, _, _, _) => AggregationIgnores(cfg, v, m); hide HandleAggregation;
    case EofFinish(_, _) =>
  }

  lemma OverwrittenMatches<M>(r: Replica<M>, c: nat, n: Node, h: Hop)
    requires Matches(r, c, n)
    requires h.view.log == n.view.log && h.view.received == n.view.received && h.view.duplicates == n.view.duplicates
    requires h.view.sent == if h.verdict.Some? then h.verdict.value.sent else n.view.sent
    ensures Matches(Overwritten(r, c, h.verdict), c, Node(h.view, n.backup))
  {
  }

  lemma HopRefines<M>(p: Params, cl: Cluster<M>, st: Stage, i: nat)
    requires Related(p, cl, st) && CanHappen(p, cl, Hops(i))
    ensures HonestRun(p, st, [TokenHop(i)]) && Related(p, Then(p, cl, Hops(i)), Run(p, st, [TokenHop(i)]))
  {
    var r, v, m := cl.replicas[i], st.views[i], cl.token.value;
    assert Matches(r, p.client, NodeOf(st, i));
    assert ViewOf(r, p.client) == Forget(v);
    AnnouncedIsIgnored(ConfigOf(p, i), v, m);
    var h := Handle(ConfigOf(p, i), v, m);
    OverwrittenMatches(r, p.client, NodeOf(st, i), h);
    hide Handle, Matches, ViewOf, Overwritten;
    SingleRun(p, st, TokenHop(i));
    if h.ack {
      assert st.backups[i := st.backups[i]] == st.backups;
      OneMoves(p, cl, st, i, Overwritten(r, p.client, h.verdict), Node(h.view, st.backups[i]),
               Then(p, cl, Hops(i)), Next(p, st, TokenHop(i)));
    }
  }

  /** What happens at the broker only. */
  lemma BrokerRefines<M>(p: Params, cl: Cluster<M>, st: Stage, e: Happens<M>)
    requires Related(p, cl, st) && CanHappen(p, cl, e) && Fair(p, cl, e) && (e.Sent? || e.HandedBack? || e.Announced?)
    ensures HonestRun(p, st, Events(e)) && Related(p, Then(p, cl, e), Run(p, st, Events(e)))
  {
    var ev := Events(e)[0];
    SingleRun(p, st, ev);
    var cl', st' := Then(p, cl, e), Next(p, st, ev);
    hide Matches;
    forall j | 0 <= j < |cl'.replicas|
      ensures Matches(cl'.replicas[j], p.client, NodeOf(st', j))
    {
      assert Matches(cl.replicas[j], p.client, NodeOf(st, j));
    }
  }

  lemma ThenRefines<M>(p: Params, cl: Cluster<M>, st: Stage, e: Happens<M>)
    requires Related(p, cl, st) && CanHappen(p, cl, e) && Fair(p, cl, e)
    ensures HonestRun(p, st, Events(e)) && Related(p, Then(p, cl, e), Run(p, st, Events(e)))
  {
    hide Related, Events, Fair, Then;
    match e
    case Handles(_, _, h, _, _) =>
      if h.Crash? && h.at == 0 {
        EarlyCrashRefines(p, cl, st, e);
      } else if h.Crash? && h.at > SavePoint(PLAIN, h.m) {
        LateCrashRefines(p, cl, st, e);
      } else {
        HandlesRefines(p, cl, st, e);
      }
    case Aside(_, h) =>
      if h.Crash? && h.at > SavePoint(PLAIN, h.m) {
        LateAsideRefines(p, cl, st, e);
      } else {
        AsideRefines(p, cl, st, e);
      }
    case Hops(i) => HopEvents(i, e); HopRefines(p, cl, st, i);
    case _ => BrokerRefines(p, cl, st, e);
  }

  lemma HopEvents<M>(i: nat, e: Happens<M>)
    requires e == Hops(i)
    ensures Events(e) == [TokenHop(i)]
  {
  }

  // ---------- runs ----------

  lemma {:induction false} RunConcat(p: Params, st: Stage, a: seq<Event>, b: seq<Event>)
    requires HonestRun(p, st, a) && HonestRun(p, Run(p, st, a), b)
    ensures HonestRun(p, st, a + b) && Run(p, st, a + b) == Run(p, Run(p, st, a), b)
    decreases |a|
  {
    hide Next, Enabled, Honest;
    if a == [] {
      assert a + b == b;
    } else {
      assert (a + b)[0] == a[0] && (a + b)[1..] == a[1..] + b;
      RunConcat(p, Next(p, st, a[0]), a[1..], b);
    }
  }

  /** Every run of the real replicas is a run of the stage machine, state by state. */
  lemma {:induction false} RunRefines<M>(p: Params, cl: Cluster<M>, st: Stage, es: seq<Happens<M>>)
    returns (evs: seq<Event>)
    requires Related(p, cl, st) && FairRun(p, cl, es)
    ensures HonestRun(p, st, evs) && Related(p, After(p, cl, es), Run(p, st, evs))
    decreases |es|
  {
    hide Related, Then, Fair, Next, Enabled, Honest;
    if es == [] {
      evs := [];
    } else {
      ThenRefines(p, cl, st, es[0]);
      var first := Events(es[0]);
      var rest := RunRefines(p, Then(p, cl, es[0]), Run(p, st, first), es[1..]);
      RunConcat(p, st, first, rest);
      evs := first + rest;
    }
  }

  lemma StartRelated<M>(p: Params)
    ensures Related<M>(p, Start(p), Init(p))
  {
    EmptyMatches<M>(p.client);
  }

  /** Some replica has the message's SAVE DONE record on disk. */
  ghost predicate OnSomeDisk<M>(p: Params, cl: Cluster<M>, x: nat) {
    exists i :: 0 <= i < |cl.replicas| && Entry(p, x) in Records(cl.replicas[i].disk.cycles, p.client)
  }

  /** EOF safety of the real replicas: in every run, once a round has succeeded, every
      message of the client is saved on some replica's disk, the number passed on is the
      number of distinct outputs, and every id that is not passed on as a suspect was
      published at most once and has no copy left. */
  lemma ClusterSafety<M>(p: Params, es: seq<Happens<M>>)
    requires ValidParams(p) && FairRun(p, Start<M>(p), es)
    ensures var cl := After(p, Start<M>(p), es);
      cl.verdict.Some? ==>
        && (forall x :: x in p.ids ==> OnSomeDisk(p, cl, x))
        && cl.verdict.value.sent == |p.emits|
        && (forall x :: x in cl.emitted ==> x in p.emits)
        && (forall x :: x in p.ids && x !in cl.verdict.value.duplicates ==>
              cl.emitted[x] <= 1 && Delivery(x, false) !in cl.queue && Delivery(x, true) !in cl.queue)
  {
    StartRelated<M>(p);
    var evs := RunRefines(p, Start<M>(p), Init(p), es);
    EofSafety.EofSafety(p, evs);
    var cl, st := After(p, Start<M>(p), es), Run(p, Init(p), evs);
    if cl.verdict.Some? {
      forall x | x in p.ids
        ensures OnSomeDisk(p, cl, x)
      {
        SavedOnDisk(p, cl, st, x);
      }
    }
  }

  lemma SavedOnDisk<M>(p: Params, cl: Cluster<M>, st: Stage, x: nat)
    requires Related(p, cl, st) && SavedSomewhere(p, st, x)
    ensures OnSomeDisk(p, cl, x)
  {
    var i :| 0 <= i < |st.views| && Entry(p, x) in st.views[i].log;
    assert Matches(cl.replicas[i], p.client, NodeOf(st, i));
    assert Entry(p, x) in Records(cl.replicas[i].disk.cycles, p.client);
  }
}
