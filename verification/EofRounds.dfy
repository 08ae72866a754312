/**
 How the token travels: which deliveries are accepted, how long a round takes, and
 how often the EOF callback runs. Nothing is assumed about the replicas' counters
 and logs, which may be different at every visit.
 */
module EofRounds {
  import opened Sequences
  import opened Messages
  import opened EofRing
  import opened EofStage
  import opened EofSafety

  function Seen(m: Message): seq<nat>
    requires IsToken(m)
  {
    if m.Eof? then [] else m.replicaIdSeen
  }

  function Phase(m: Message): nat
    requires IsToken(m)
  {
    if m.EofFinish? then 0 else if m.EofAggregation? then 1 else 2
  }

  /** A token as it is found on the broker of a stage with n replicas. */
  predicate Fits(n: nat, m: Message) {
    IsToken(m) && SeenOk(n, Seen(m)) && |Seen(m)| < n
  }

  /** Accepted deliveries left until the decision, or until a finishing token is gone. */
  function Remaining(n: nat, m: Message): int
    requires IsToken(m)
  {
    (if m.Eof? || m.EofDiscovery? then 2 * n - 1 else n) - |Seen(m)|
  }

  /** The termination order inside a round: a later phase, or more replicas seen in the same one. */
  predicate Later(n: nat, m: Message, m': Message)
    requires IsToken(m) && IsToken(m')
  {
    Phase(m') < Phase(m) || (Phase(m') == Phase(m) && n - |Seen(m')| < n - |Seen(m)|)
  }

  /** An accepted delivery that does not decide the round. */
  predicate Advances(n: nat, m: Message, h: Hop)
    requires IsToken(m)
  {
    && |h.out| == 1 && Fits(n, h.out[0]) && !h.out[0].Eof? && !h.out[0].EofFinish?
    && Later(n, m, h.out[0])
    && Remaining(n, h.out[0]) == Remaining(n, m) - 1
    && h.callbacks == 0 && h.verdict.None?
  }

  /** The deciding delivery starts the round over or lets the token finish. */
  predicate Decides(n: nat, m: Message, r: nat, h: Hop) {
    if h.verdict.None? then h.callbacks == 0 && |h.out| == 1 && h.out[0].Eof?
    else h.callbacks == 1 && (if n == 1 then h.out == [] else h.out == [EofFinish(m.clientId, [r])])
  }

  /** Aggregation at a replica that has not seen the token. */
  lemma AggregationStep(cfg: Config, v: View, m: Message)
    requires m.EofAggregation? && cfg.replicaId !in m.replicaIdSeen
    requires SeenOk(cfg.replicasCount, m.replicaIdSeen + [cfg.replicaId]) && |m.replicaIdSeen| < cfg.replicasCount
    ensures var h, n, r := HandleAggregation(cfg, v, m), cfg.replicasCount, cfg.replicaId;
      h.ack && if |m.replicaIdSeen| + 1 < n then Advances(n, m, h) else Decides(n, m, r, h)
  {
    hide CountDuplicates, Search, SeenOk;
    assert [] + [cfg.replicaId] == [cfg.replicaId];
  }

  lemma DiscoveryStep(cfg: Config, v: View, m: Message)
    requires m.EofDiscovery? && cfg.replicaId !in m.replicaIdSeen
    requires SeenOk(cfg.replicasCount, m.replicaIdSeen + [cfg.replicaId]) && |m.replicaIdSeen| < cfg.replicasCount
    requires 1 <= cfg.replicaId <= cfg.replicasCount
    ensures var h, n, r := HandleDiscovery(cfg, v, m), cfg.replicasCount, cfg.replicaId;
      h.ack && if Remaining(n, m) > 1 then Advances(n, m, h) else Decides(n, m, r, h)
  {
    if |m.replicaIdSeen| + 1 == cfg.replicasCount {
      AggregationStep(cfg, v, ToAggregation(UpdateDiscovery(cfg, v, m)));
    }
    hide HandleAggregation, SeenOk;
  }

  /** What any replica does with any token that fits. */
  lemma HopStep(cfg: Config, v: View, m: Message)
    requires Fits(cfg.replicasCount, m) && 1 <= cfg.replicaId <= cfg.replicasCount
    ensures var h, n, r := Handle(cfg, v, m), cfg.replicasCount, cfg.replicaId;
      if r in Seen(m) then h == Hop(v, [], false, 0, None)
      else if m.EofFinish? then
        h == Hop(v, if |Seen(m)| + 1 < n then [EofFinish(m.clientId, Seen(m) + [r])] else [], true,
                 if cfg.topic then 1 else 0, None)
      else h.ack && if Remaining(n, m) > 1 then Advances(n, m, h) else Decides(n, m, r, h)
  {
    if cfg.replicaId !in Seen(m) && !m.EofFinish? {
      SeenGrows(cfg.replicasCount, Seen(m), cfg.replicaId);
      if m.EofAggregation? {
        AggregationStep(cfg, v, m);
      } else {
        DiscoveryStep(cfg, v, if m.Eof? then ToDiscovery(m) else m);
      }
      hide HandleAggregation, HandleDiscovery, SeenOk;
    }
  }

  // ---------- whole tours ----------

  /** A delivery of the token to a replica, which holds `view` at that moment. */
  datatype Visit = Visit(replica: nat, view: View)

  /** `accepted` counts the deliveries accepted since the last EOF was put on the broker,
      `failed` holds the lengths of the rounds that started over, `called` the replicas
      whose EOF callback ran. */
  datatype Tour = Tour(token: Option<Message>, accepted: nat, failed: seq<nat>, called: seq<nat>)

  function Moved(t: Tour, r: nat, h: Hop): Tour {
    if !h.ack then t
    else
      var token := if h.out == [] then None else Some(h.out[0]);
      var called := t.called + (if h.callbacks == 1 then [r] else []);
      if token.Some? && token.value.Eof? then Tour(token, 0, t.failed + [t.accepted + 1], called)
      else Tour(token, t.accepted + 1, t.failed, called)
  }

  function Step(cfg: Config, t: Tour, visit: Visit): Tour
    requires t.token.Some? ==> IsToken(t.token.value)
  {
    if t.token.None? then t
    else Moved(t, visit.replica, Handle(cfg.(replicaId := visit.replica), visit.view, t.token.value))
  }

  predicate VisitsOk(n: nat, visits: seq<Visit>) {
    forall k :: 0 <= k < |visits| ==> 1 <= visits[k].replica <= n
  }

  /** The accounting of a tour: failed rounds took 2n-1 accepted deliveries each; the
      successful one takes 3n-2, and calls back once (queue) or once per replica (topic). */
  predicate Accounted(cfg: Config, t: Tour) {
    var n := cfg.replicasCount;
    && (forall k :: 0 <= k < |t.failed| ==> t.failed[k] == 2 * n - 1)
    && match t.token
       case None =>
         && t.accepted == 3 * n - 2
         && (if cfg.topic then SeenOk(n, t.called) && |t.called| == n else |t.called| == 1)
       case Some(m) =>
         && Fits(n, m)
         && (if m.EofFinish? then
               && t.accepted + Remaining(n, m) == 3 * n - 2
               && |m.replicaIdSeen| >= 1
               && (if cfg.topic then t.called == m.replicaIdSeen else |t.called| == 1)
             else
               t.accepted + Remaining(n, m) == 2 * n - 1 && t.called == [])
  }

  lemma FinishAccounted(cfg: Config, t: Tour, m: Message, r: nat, h: Hop)
    requires Accounted(cfg, t) && t.token == Some(m) && m.EofFinish?
    requires 1 <= r <= cfg.replicasCount && r !in Seen(m)
    requires h.out == (if |Seen(m)| + 1 < cfg.replicasCount then [EofFinish(m.clientId, Seen(m) + [r])] else [])
    requires h.ack && h.callbacks == (if cfg.topic then 1 else 0) && h.verdict.None?
    ensures Accounted(cfg, Moved(t, r, h))
  {
    SeenGrows(cfg.replicasCount, Seen(m), r);
  }

  lemma DecisionAccounted(cfg: Config, t: Tour, m: Message, r: nat, h: Hop)
    requires Accounted(cfg, t) && t.token == Some(m) && !m.EofFinish?
    requires 1 <= r <= cfg.replicasCount && Remaining(cfg.replicasCount, m) == 1
    requires h.ack && Decides(cfg.replicasCount, m, r, h)
    ensures Accounted(cfg, Moved(t, r, h))
  {
  }

  lemma StepAccounted(cfg: Config, t: Tour, visit: Visit)
    requires Accounted(cfg, t) && 1 <= visit.replica <= cfg.replicasCount
    ensures Accounted(cfg, Step(cfg, t, visit))
  {
    if t.token.Some? {
      var m, h := t.token.value, Handle(cfg.(replicaId := visit.replica), visit.view, t.token.value);
      HopStep(cfg.(replicaId := visit.replica), visit.view, m);
      hide Handle, Later;
      if visit.replica in Seen(m) {
      } else if m.EofFinish? {
        FinishAccounted(cfg, t, m, visit.replica, h);
      } else if Remaining(cfg.replicasCount, m) == 1 {
        DecisionAccounted(cfg, t, m, visit.replica, h);
      }
    }
  }

  function Travel(cfg: Config, t: Tour, visits: seq<Visit>): (t': Tour)
    requires Accounted(cfg, t) && VisitsOk(cfg.replicasCount, visits)
    ensures Accounted(cfg, t')
    decreases |visits|
  {
    if visits == [] then t
    else
      StepAccounted(cfg, t, visits[0]);
      Travel(cfg, Step(cfg, t, visits[0]), visits[1..])
  }

  /** For every order in which the broker hands the token round, and whatever the replicas
      answer: every failed round has taken exactly 2n-1 accepted deliveries; if the token
      is gone, its last round took exactly 3n-2 and the EOF callback has run exactly once
      in queue mode, exactly once on every replica in topic mode. */
  lemma RoundLengths(cfg: Config, client: nat, sent: int, suspects: seq<nat>, visits: seq<Visit>)
    requires cfg.replicasCount > 0 && VisitsOk(cfg.replicasCount, visits)
    ensures var n := cfg.replicasCount;
      var t := Travel(cfg, Tour(Some(Eof(client, sent, suspects)), 0, [], []), visits);
      && (forall k :: 0 <= k < |t.failed| ==> t.failed[k] == 2 * n - 1)
      && (t.token.None? ==>
            && t.accepted == 3 * n - 2
            && if cfg.topic then (forall r :: 1 <= r <= n ==> multiset(t.called)[r] == 1) else |t.called| == 1)
  {
    var n := cfg.replicasCount;
    var t := Travel(cfg, Tour(Some(Eof(client, sent, suspects)), 0, [], []), visits);
    if t.token.None? && cfg.topic {
      FullCircle(n, t.called);
      forall r | 1 <= r <= n
        ensures multiset(t.called)[r] == 1
      {
        DistinctOnce(t.called, r);
      }
    }
  }

  lemma {:induction false} DistinctOnce(s: seq<nat>, x: nat)
    requires Distinct(s)
    ensures multiset(s)[x] == if x in s then 1 else 0
  {
    if s != [] {
      assert s == [s[0]] + s[1..];
      DistinctOnce(s[1..], x);
    }
  }

  /** A token never gets stuck: some replica accepts it. */
  lemma SomeoneAccepts(n: nat, m: Message)
    requires Fits(n, m)
    ensures exists r :: 1 <= r <= n && r !in Seen(m)
  {
    if forall r :: 1 <= r <= n ==> r in Seen(m) {
      assert IdsUpTo(n) <= Members(Seen(m));
      DistinctCount(Seen(m));
      SubsetCount(IdsUpTo(n), Members(Seen(m)));
      assert false;
    }
  }

  // ---------- topic mode ----------

  /** The only replica a requeued token is routed to (get_exchange_and_routing_key). */
  function Successor(n: nat, r: nat): nat
    requires n > 0
  {
    r % n + 1
  }

  /** The replica `d` steps after `r` on the ring 1, 2, ..., n, 1. */
  function Ahead(n: nat, r: nat, d: nat): nat {
    if r + d <= n then r + d else r + d - n
  }

  /** The replicas seen are consecutive on the ring, and `at` comes next. */
  predicate OnTrack(n: nat, seen: seq<nat>, at: nat) {
    && 1 <= at <= n
    && |seen| <= n
    && forall j :: 0 <= j < |seen| ==> 1 <= seen[j] <= n && Ahead(n, seen[j], |seen| - j) == at
  }

  /** One cycle of length n: d < n steps lead to another replica, n steps lead back. */
  lemma {:induction false} OneCycle(n: nat, r: nat, d: nat)
    requires 1 <= r <= n && d <= n
    ensures Ahead(n, r, 0) == r && Ahead(n, r, n) == r
    ensures d < n ==> Ahead(n, r, d + 1) == Successor(n, Ahead(n, r, d))
    ensures 0 < d < n ==> Ahead(n, r, d) != r
  {
    if d < n {
      assert Ahead(n, r, d) < n ==> Ahead(n, r, d) % n == Ahead(n, r, d);
    }
  }

  /** Going round from any replica, the next one has not been seen before the circle closes. */
  lemma NextIsNew(n: nat, seen: seq<nat>, at: nat)
    requires |seen| < n && OnTrack(n, seen, at)
    ensures at !in seen
    ensures OnTrack(n, seen + [at], Successor(n, at))
  {
    var seen' := seen + [at];
    forall j | 0 <= j < |seen'|
      ensures seen'[j] == at ==> j == |seen|
      ensures Ahead(n, seen'[j], |seen'| - j) == Successor(n, at)
    {
      OneCycle(n, seen'[j], |seen| - j);
    }
  }

  /** In topic mode no delivery of the token is ever refused: from any starting replica it
      visits the replicas in ring order, and stays on track through every phase and round. */
  lemma TopicHop(cfg: Config, v: View, m: Message)
    requires Fits(cfg.replicasCount, m) && OnTrack(cfg.replicasCount, Seen(m), cfg.replicaId)
    ensures var h := Handle(cfg, v, m);
      && h.ack
      && (h.out != [] ==> OnTrack(cfg.replicasCount, Seen(h.out[0]), Successor(cfg.replicasCount, cfg.replicaId)))
  {
    NextIsNew(cfg.replicasCount, Seen(m), cfg.replicaId);
    NextIsNew(cfg.replicasCount, [], cfg.replicaId);
    assert [] + [cfg.replicaId] == [cfg.replicaId];
    HopStep(cfg, v, m);
  }

  /** The replica that gets the k-th delivery of a token that starts at `start`. */
  function Stop(n: nat, start: nat, k: nat): nat
    requires n > 0
  {
    if k == 0 then start else Successor(n, Stop(n, start, k - 1))
  }

  lemma {:induction false} StopAhead(n: nat, start: nat, k: nat)
    requires n > 0
    ensures Stop(n, start, k + 1) == Stop(n, Successor(n, start), k)
  {
    if k > 0 {
      StopAhead(n, start, k - 1);
    }
  }

  predicate AlongRing(n: nat, start: nat, visits: seq<Visit>)
    requires n > 0
  {
    forall k :: 0 <= k < |visits| ==> visits[k].replica == Stop(n, start, k)
  }

  /** Where a token is in the tour, and where it goes next. */
  predicate Placed(cfg: Config, t: Tour, at: nat) {
    1 <= at <= cfg.replicasCount
    && (t.token.Some? ==> Fits(cfg.replicasCount, t.token.value) && OnTrack(cfg.replicasCount, Seen(t.token.value), at))
  }

  /** All accepted deliveries, over all rounds. */
  function Deliveries(cfg: Config, t: Tour): int {
    (2 * cfg.replicasCount - 1) * |t.failed| + t.accepted
  }

  lemma TopicStep(cfg: Config, t: Tour, at: nat, visit: Visit)
    requires Accounted(cfg, t) && Placed(cfg, t, at) && t.token.Some? && visit.replica == at
    ensures var t' := Step(cfg, t, visit);
      && Accounted(cfg, t') && Placed(cfg, t', Successor(cfg.replicasCount, at))
      && Deliveries(cfg, t') == Deliveries(cfg, t) + 1
  {
    var m, here := t.token.value, cfg.(replicaId := at);
    TopicHop(here, visit.view, m);
    StepAccounted(cfg, t, visit);
    var h := Handle(here, visit.view, m);
    hide Handle, OnTrack, Successor;
    if h.out != [] && h.out[0].Eof? {
      RestartsAtTheEnd(cfg, t, at, h, Step(cfg, t, visit));
    }
    SuccessorInRing(cfg.replicasCount, at);
  }

  lemma SuccessorInRing(n: nat, at: nat)
    requires 1 <= at <= n
    ensures 1 <= Successor(n, at) <= n
  {
  }

  /** A round that starts over has used up its deliveries. */
  lemma RestartsAtTheEnd(cfg: Config, t: Tour, r: nat, h: Hop, t': Tour)
    requires h.ack && h.out != [] && h.out[0].Eof? && t' == Moved(t, r, h) && Accounted(cfg, t')
    ensures Deliveries(cfg, t') == Deliveries(cfg, t) + 1
  {
    var round, f := 2 * cfg.replicasCount - 1, |t.failed|;
    assert t'.failed[f] == t.accepted + 1 == round;
    assert round * (f + 1) == round * f + round;
  }

  lemma {:induction false} RingTour(cfg: Config, t: Tour, at: nat, visits: seq<Visit>) returns (used: nat)
    requires Accounted(cfg, t) && Placed(cfg, t, at) && cfg.replicasCount > 0
    requires AlongRing(cfg.replicasCount, at, visits) && VisitsOk(cfg.replicasCount, visits)
    ensures used <= |visits| && Deliveries(cfg, Travel(cfg, t, visits)) == Deliveries(cfg, t) + used
    ensures Travel(cfg, t, visits).token.Some? ==> used == |visits|
    ensures used < |visits| ==> Travel(cfg, t, visits[..used]) == Travel(cfg, t, visits)
    decreases |visits|
  {
    if visits == [] {
      used := 0;
    } else if t.token.None? {
      GoneIsGone(cfg, t, visits);
      assert visits[..0] == [];
      used := 0;
    } else {
      assert visits[0].replica == Stop(cfg.replicasCount, at, 0);
      TopicStep(cfg, t, at, visits[0]);
      var t', next := Step(cfg, t, visits[0]), Successor(cfg.replicasCount, at);
      forall k | 0 <= k < |visits[1..]|
        ensures visits[1..][k].replica == Stop(cfg.replicasCount, next, k)
      {
        StopAhead(cfg.replicasCount, at, k);
        assert visits[1..][k] == visits[k + 1];
      }
      hide Step, Accounted, Placed, Stop, Deliveries, Successor;
      var later := RingTour(cfg, t', next, visits[1..]);
      used := later + 1;
      assert visits[..used][0] == visits[0] && visits[..used][1..] == visits[1..][..later];
    }
  }

  lemma {:induction false} GoneIsGone(cfg: Config, t: Tour, visits: seq<Visit>)
    requires Accounted(cfg, t) && t.token.None? && VisitsOk(cfg.replicasCount, visits)
    ensures Travel(cfg, t, visits) == t
    decreases |visits|
  {
    if visits != [] {
      GoneIsGone(cfg, t, visits[1..]);
    }
  }

  /** The whole tour in topic mode: from any replica and whatever the replicas answer, the
      token that follows the ring is never refused. After `used` deliveries, which are all
      of them while it travels, it has made every failed round in 2n-1 deliveries; and when
      it is gone its last round took 3n-2 and the EOF callback ran once on every replica. */
  lemma TopicTour(cfg: Config, client: nat, sent: int, suspects: seq<nat>, start: nat, visits: seq<Visit>)
    returns (used: nat)
    requires cfg.topic && 1 <= start <= cfg.replicasCount
    requires AlongRing(cfg.replicasCount, start, visits) && VisitsOk(cfg.replicasCount, visits)
    ensures used <= |visits|
    ensures var n := cfg.replicasCount;
      var t := Travel(cfg, Tour(Some(Eof(client, sent, suspects)), 0, [], []), visits);
      if t.token.Some? then used == |visits| == (2 * n - 1) * |t.failed| + t.accepted
      else used == (2 * n - 1) * |t.failed| + 3 * n - 2 && forall r :: 1 <= r <= n ==> multiset(t.called)[r] == 1
  {
    var t0 := Tour(Some(Eof(client, sent, suspects)), 0, [], []);
    used := RingTour(cfg, t0, start, visits);
    RoundLengths(cfg, client, sent, suspects, visits);
  }
}
