/** The stage invariant holds in every run, whatever the interleaving. */
module EofSafety {
  import opened Sequences
  import opened Messages
  import opened EofRing
  import opened Accounting
  import opened EofStage

  // ---------- deliveries ----------

  predicate Saves(outcome: Outcome) {
    outcome.Done? || outcome.CrashAfterSave?
  }

  // ---------- what a delivery does to a memory ----------

  /** The memory counts what it counted, and suspects no less. */
  predicate Keeps(m: Counters, m': Counters) {
    && m'.counted == m.counted && m'.received == m.received && m'.sent == m.sent
    && (forall x :: x in m.duplicates ==> x in m'.duplicates)
  }

  /** The memory counts the delivered message as well, and suspects it unless this was its
      first delivery and it was acknowledged. */
  predicate Adds(p: Params, m: Counters, m': Counters, d: Delivery, outcome: Outcome) {
    && Saves(outcome)
    && m'.counted == m.counted + [Entry(p, d.id)] && m'.received == m.received + 1
    && m'.sent == m.sent + (if d.id in p.emits then 1 else 0)
    && (forall x :: x in m.duplicates ==> x in m'.duplicates)
    && (d.id in m'.duplicates || (outcome.Done? && !d.redelivered))
  }

  predicate Follows(p: Params, m: Counters, m': Counters, d: Delivery, outcome: Outcome) {
    Keeps(m, m') || Adds(p, m, m', d, outcome)
  }

  /** Every memory of the replica comes from the one in use or from the committed one. */
  predicate Comes(p: Params, n: Node, m': Counters, d: Delivery, outcome: Outcome) {
    Follows(p, Now(n), m', d, outcome) || Keeps(n.backup.committed, m')
  }

  /** A delivery adds at most one record, to one log. */
  lemma DeliveryLog(p: Params, n: Node, d: Delivery, outcome: Outcome)
    ensures var n' := NodeAfter(n, d.id, d.redelivered, Sends(p, d.id), outcome);
      && n'.view.log == n.view.log + (if Saves(outcome) then [Entry(p, d.id)] else [])
      && Comes(p, n, Now(n'), d, outcome)
      && Comes(p, n, n'.backup.committed, d, outcome)
      && Comes(p, n, n'.backup.restart, d, outcome)
  {
  }

  lemma DeliveryLogged(p: Params, st: Stage, i: nat, d: Delivery, outcome: Outcome, x: nat)
    requires i < |st.views| == |st.backups|
    ensures Logged(p, AfterDelivery(p, st, i, d, outcome), x)
         == Logged(p, st, x) + if Saves(outcome) && x == d.id then 1 else 0
  {
    DeliveryLog(p, NodeOf(st, i), d, outcome);
    hide NodeAfter, Comes;
    var extra := if Saves(outcome) then [Entry(p, d.id)] else [];
    var log' := st.views[i].log + extra;
    assert Logs(AfterDelivery(p, st, i, d, outcome).views) == Logs(st.views)[i := log'];
    FlattenUpdateCount(Logs(st.views), i, log', Entry(p, x));
    assert multiset(log') == multiset(Logs(st.views)[i]) + multiset(extra);
    assert multiset(extra)[Entry(p, x)] == if Saves(outcome) && x == d.id then 1 else 0;
  }

  lemma ComesKeepsBooks(p: Params, n: Node, m': Counters, d: Delivery, outcome: Outcome, open: bool)
    requires NodeBooks(p, n, open) && Comes(p, n, m', d, outcome)
    ensures CountersBooks(m', n.view.log + (if Saves(outcome) then [Entry(p, d.id)] else []), open)
  {
    var extra := if Saves(outcome) then [Entry(p, d.id)] else [];
    assert multiset(n.view.log + extra) == multiset(n.view.log) + multiset(extra);
    if Adds(p, Now(n), m', d, outcome) {
      SentOnlyAppend(Now(n).counted, extra);
      assert |SentOnly(extra)| == if d.id in p.emits then 1 else 0;
      assert multiset(m'.counted) == multiset(Now(n).counted) + multiset(extra);
    }
  }

  lemma DeliverKeepsNode(p: Params, n: Node, d: Delivery, outcome: Outcome, open: bool)
    requires NodeBooks(p, n, open) && d.id in p.ids
    ensures NodeBooks(p, NodeAfter(n, d.id, d.redelivered, Sends(p, d.id), outcome), open)
  {
    var n' := NodeAfter(n, d.id, d.redelivered, Sends(p, d.id), outcome);
    DeliveryLog(p, n, d, outcome);
    hide NodeAfter, Comes, CountersBooks;
    ComesKeepsBooks(p, n, Now(n'), d, outcome, open);
    ComesKeepsBooks(p, n, n'.backup.committed, d, outcome, open);
    ComesKeepsBooks(p, n, n'.backup.restart, d, outcome, open);
  }

  lemma DeliverIds(p: Params, st: Stage, i: nat, d: Delivery, outcome: Outcome)
    requires Enabled(p, st, Deliver(i, d, outcome)) && Books(p, st)
    ensures var st' := AfterDelivery(p, st, i, d, outcome);
      && (forall d' :: d' in st'.queue ==> d'.id in p.ids)
      && (forall x :: x in st'.emitted ==> x in p.emits)
  {
    hide NodeBooks, NodeAfter;
    assert d.id in p.ids;
    assert forall d' :: d' in PutBack(d, outcome) ==> d'.id == d.id;
  }

  lemma DeliverNodes(p: Params, st: Stage, i: nat, d: Delivery, outcome: Outcome, j: nat)
    requires Enabled(p, st, Deliver(i, d, outcome)) && Books(p, st) && j < p.n
    ensures NodeBooks(p, NodeOf(AfterDelivery(p, st, i, d, outcome), j), st.verdict.None?)
  {
    hide NodeAfter, NodeBooks, PutBack, Output;
    assert NodeBooks(p, NodeOf(st, j), st.verdict.None?);
    if i == j {
      DeliverKeepsNode(p, NodeOf(st, i), d, outcome, st.verdict.None?);
    }
  }

  lemma DeliverBooks(p: Params, st: Stage, i: nat, d: Delivery, outcome: Outcome)
    requires Enabled(p, st, Deliver(i, d, outcome)) && Books(p, st)
    ensures Books(p, AfterDelivery(p, st, i, d, outcome))
  {
    DeliverIds(p, st, i, d, outcome);
    hide NodeAfter, NodeBooks, PutBack, Output;
    var st' := AfterDelivery(p, st, i, d, outcome);
    forall j | 0 <= j < p.n
      ensures NodeBooks(p, NodeOf(st', j), st'.verdict.None?)
    {
      DeliverNodes(p, st, i, d, outcome, j);
    }
  }

  lemma DeliverCopies(p: Params, st: Stage, i: nat, d: Delivery, outcome: Outcome)
    requires Enabled(p, st, Deliver(i, d, outcome)) && Copies(st)
    ensures Copies(AfterDelivery(p, st, i, d, outcome))
  {
    assert d == Delivery(d.id, true) || d == Delivery(d.id, false);
  }

  lemma DeliverUntouched(p: Params, st: Stage, i: nat, d: Delivery, outcome: Outcome)
    requires Enabled(p, st, Deliver(i, d, outcome)) && Copies(st) && Untouched(p, st)
    ensures Untouched(p, AfterDelivery(p, st, i, d, outcome))
  {
    var st' := AfterDelivery(p, st, i, d, outcome);
    forall x | st'.arrived[x] == 0 || (st'.arrived[x] <= 1 && Delivery(x, false) in st'.queue)
      ensures st'.emitted[x] == 0 && Logged(p, st', x) == 0
    {
      NotDelivered(p, st, i, d, outcome, x);
      DeliveryLogged(p, st, i, d, outcome, x);
      hide NodeAfter, Logged;
    }
  }

  /** A message whose first copy is still in the queue was not the one delivered. */
  lemma NotDelivered(p: Params, st: Stage, i: nat, d: Delivery, outcome: Outcome, x: nat)
    requires Enabled(p, st, Deliver(i, d, outcome)) && Copies(st)
    requires var st' := AfterDelivery(p, st, i, d, outcome);
      st'.arrived[x] == 0 || (st'.arrived[x] <= 1 && Delivery(x, false) in st'.queue)
    ensures x != d.id
    ensures Delivery(x, false) in AfterDelivery(p, st, i, d, outcome).queue ==> Delivery(x, false) in st.queue
  {
    assert d == Delivery(d.id, true) || d == Delivery(d.id, false);
    assert st.queue[Delivery(d.id, false)] + st.queue[Delivery(d.id, true)] <= st.arrived[d.id];
  }

  /** Nothing happens any more to a message that is retired. */
  lemma DeliverKeepsRetired(p: Params, st: Stage, i: nat, d: Delivery, outcome: Outcome, x: nat)
    requires Enabled(p, st, Deliver(i, d, outcome)) && Retired(p, st, x)
    ensures Retired(p, AfterDelivery(p, st, i, d, outcome), x)
  {
    assert d == Delivery(d.id, true) || d == Delivery(d.id, false);
    DeliveryLogged(p, st, i, d, outcome, x);
  }

  lemma DeliverConcluded(p: Params, st: Stage, i: nat, d: Delivery, outcome: Outcome)
    requires Enabled(p, st, Deliver(i, d, outcome)) && Custody(p, st)
    ensures Concluded(p, AfterDelivery(p, st, i, d, outcome))
  {
    var st', n := AfterDelivery(p, st, i, d, outcome), NodeOf(st, i);
    DeliveryLog(p, n, d, outcome);
    hide NodeAfter, Comes, Over, Copies, Untouched;
    forall j | 0 <= j < |st'.views|
      ensures NodeOver(p, st', NodeOf(st', j))
    {
      assert NodeOver(p, st, NodeOf(st, j));
      if j == i {
        ComesIsOver(p, st, i, d, outcome, Now(NodeOf(st', i)));
        ComesIsOver(p, st, i, d, outcome, st'.backups[i].committed);
        ComesIsOver(p, st, i, d, outcome, st'.backups[i].restart);
      } else {
        DeliverKeepsOver(p, st, i, d, outcome, Now(NodeOf(st, j)));
        DeliverKeepsOver(p, st, i, d, outcome, st.backups[j].committed);
        DeliverKeepsOver(p, st, i, d, outcome, st.backups[j].restart);
      }
    }
  }

  lemma DeliverKeepsOver(p: Params, st: Stage, i: nat, d: Delivery, outcome: Outcome, m: Counters)
    requires Enabled(p, st, Deliver(i, d, outcome)) && Over(p, st, m)
    ensures Over(p, AfterDelivery(p, st, i, d, outcome), m)
  {
    hide Retired, NodeAfter;
    forall e | e in m.counted && e.id !in m.duplicates && st.arrived[e.id] <= 1
      ensures Retired(p, AfterDelivery(p, st, i, d, outcome), e.id)
    {
      DeliverKeepsRetired(p, st, i, d, outcome, e.id);
    }
  }

  /** What a memory of the delivering replica counts and does not suspect is over: the
      delivered message, if this was the first delivery of its only copy, and the others
      as before. */
  lemma ComesIsOver(p: Params, st: Stage, i: nat, d: Delivery, outcome: Outcome, m': Counters)
    requires Enabled(p, st, Deliver(i, d, outcome)) && Custody(p, st)
    requires Comes(p, NodeOf(st, i), m', d, outcome)
    ensures Over(p, AfterDelivery(p, st, i, d, outcome), m')
  {
    assert NodeOver(p, st, NodeOf(st, i));
    hide Retired, Copies, Untouched, NodeAfter, Logged;
    forall e | e in m'.counted && e.id !in m'.duplicates && st.arrived[e.id] <= 1
      ensures Retired(p, AfterDelivery(p, st, i, d, outcome), e.id)
    {
      if e in Now(NodeOf(st, i)).counted && Follows(p, Now(NodeOf(st, i)), m', d, outcome) {
        assert e.id !in Now(NodeOf(st, i)).duplicates;
        DeliverKeepsRetired(p, st, i, d, outcome, e.id);
      } else if Keeps(st.backups[i].committed, m') {
        DeliverKeepsRetired(p, st, i, d, outcome, e.id);
      } else {
        assert e == Entry(p, d.id);
        FirstDelivery(p, st, i, d, outcome);
      }
    }
  }

  /** The only copy of a message, delivered for the first time and acknowledged, ends there. */
  lemma FirstDelivery(p: Params, st: Stage, i: nat, d: Delivery, outcome: Outcome)
    requires Enabled(p, st, Deliver(i, d, outcome)) && Copies(st) && Untouched(p, st)
    requires outcome.Done? && !d.redelivered && st.arrived[d.id] <= 1
    ensures Retired(p, AfterDelivery(p, st, i, d, outcome), d.id)
  {
    assert d == Delivery(d.id, false);
    DeliveryLogged(p, st, i, d, outcome, d.id);
  }

  // ---------- what a data event does to the token ----------

  /** From `st` to `st'` logs and arrivals only grow, and what is over stays over. */
  ghost predicate Grows(p: Params, st: Stage, st': Stage) {
    && |st'.views| == |st.views|
    && (forall i :: 0 <= i < |st.views| ==> multiset(st.views[i].log) <= multiset(st'.views[i].log))
    && (forall x :: st.arrived[x] <= st'.arrived[x])
    && (forall x :: Retired(p, st, x) && st'.arrived[x] <= 1 ==> Retired(p, st', x))
    && st'.token == st.token && st'.feed == st.feed && st'.verdict == st.verdict
  }

  lemma GrowsKeepsToken(p: Params, st: Stage, st': Stage)
    requires |st.views| == p.n && Grows(p, st, st') && TokenOk(p, st)
    ensures TokenOk(p, st')
  {
    if st.token.Some? {
      match st.token.value
      case EofDiscovery(_, s, ds, received, sent, dups, seen) =>
        var snap :| SnapOk(p, st, seen, received, sent, dups, snap);
        GrowsKeepsSnap(p, st, st', seen, received, sent, dups, snap);
      case EofAggregation(_, s, ds, received, sent, dups, seen, records) =>
        var snap, found :| SnapOk(p, st, Everyone(p.n), received, sent, dups, snap)
                        && FoundOk(p, seen, dups + ds, records, snap, found);
        GrowsKeepsSnap(p, st, st', Everyone(p.n), received, sent, dups, snap);
      case _ =>
    }
  }

  lemma GrowsKeepsSnap(p: Params, st: Stage, st': Stage, seen: seq<nat>, received: int, sent: int,
                       duplicates: seq<nat>, snap: seq<seq<ProcessedMessage>>)
    requires |st.views| == p.n && Grows(p, st, st')
    requires SnapOk(p, st, seen, received, sent, duplicates, snap)
    ensures SnapOk(p, st', seen, received, sent, duplicates, snap)
  {
  }

  lemma GrowsKeepsSettled(p: Params, st: Stage, st': Stage)
    requires Grows(p, st, st') && Settled(p, st)
    ensures Settled(p, st')
  {
    forall x
      ensures Logged(p, st, x) <= Logged(p, st', x)
    {
      FlattenCountAtMost(Logs(st.views), Logs(st'.views), Entry(p, x));
    }
  }

  lemma DeliverGrows(p: Params, st: Stage, i: nat, d: Delivery, outcome: Outcome)
    requires Enabled(p, st, Deliver(i, d, outcome))
    ensures Grows(p, st, AfterDelivery(p, st, i, d, outcome))
  {
    DeliveryLog(p, NodeOf(st, i), d, outcome);
    hide NodeAfter, Comes;
    forall x | Retired(p, st, x)
      ensures Retired(p, AfterDelivery(p, st, i, d, outcome), x)
    {
      DeliverKeepsRetired(p, st, i, d, outcome, x);
    }
  }

  lemma DeliverInvariant(p: Params, st: Stage, i: nat, d: Delivery, outcome: Outcome)
    requires Enabled(p, st, Deliver(i, d, outcome)) && Invariant(p, st)
    ensures Invariant(p, Next(p, st, Deliver(i, d, outcome)))
  {
    var st' := AfterDelivery(p, st, i, d, outcome);
    DeliverBooks(p, st, i, d, outcome);
    DeliverCopies(p, st, i, d, outcome);
    DeliverUntouched(p, st, i, d, outcome);
    DeliverConcluded(p, st, i, d, outcome);
    DeliverGrows(p, st, i, d, outcome);
    GrowsKeepsToken(p, st, st');
    GrowsKeepsSettled(p, st, st');
  }

  // ---------- the events that handle nothing ----------

  /** The logs stay, every memory is one that the replica had, and what is over stays over. */
  ghost predicate Calm(p: Params, st: Stage, st': Stage) {
    && |st'.views| == |st'.backups| == |st.views| == |st.backups|
    && (forall i :: 0 <= i < |st.views| ==> Shuffled(NodeOf(st, i), NodeOf(st', i)))
    && (forall x :: st.arrived[x] <= st'.arrived[x])
    && (forall x :: Retired(p, st, x) && st'.arrived[x] <= 1 ==> Retired(p, st', x))
  }

  predicate Shuffled(n: Node, n': Node) {
    && n'.view.log == n.view.log
    && Had(n, Now(n')) && Had(n, n'.backup.committed) && Had(n, n'.backup.restart)
  }

  predicate Had(n: Node, m: Counters) {
    m == Now(n) || m == n.backup.committed || m == n.backup.restart
  }

  lemma CalmConcluded(p: Params, st: Stage, st': Stage)
    requires Calm(p, st, st') && Concluded(p, st)
    ensures Concluded(p, st')
  {
    hide Retired;
    forall i | 0 <= i < |st'.views|
      ensures NodeOver(p, st', NodeOf(st', i))
    {
      assert NodeOver(p, st, NodeOf(st, i)) && Shuffled(NodeOf(st, i), NodeOf(st', i));
      CalmOver(p, st, st', NodeOf(st, i), NodeOf(st', i));
    }
  }

  lemma CalmOver(p: Params, st: Stage, st': Stage, n: Node, n': Node)
    requires forall x :: st.arrived[x] <= st'.arrived[x]
    requires forall x :: Retired(p, st, x) && st'.arrived[x] <= 1 ==> Retired(p, st', x)
    requires NodeOver(p, st, n) && Shuffled(n, n')
    ensures NodeOver(p, st', n')
  {
    hide Retired;
  }

  lemma CalmBooks(p: Params, st: Stage, st': Stage)
    requires Calm(p, st, st') && Books(p, st) && (st.verdict.None? <==> st'.verdict.None?)
    requires forall d :: d in st'.queue ==> d.id in p.ids
    requires forall x :: x in st'.arrived ==> x in p.ids
    requires st'.emitted == st.emitted
    ensures |st'.views| == p.n && Books(p, st')
  {
    hide Retired, NodeBooks;
    forall i | 0 <= i < p.n
      ensures NodeBooks(p, NodeOf(st', i), st'.verdict.None?)
    {
      assert NodeBooks(p, NodeOf(st, i), st.verdict.None?) && Shuffled(NodeOf(st, i), NodeOf(st', i));
      ShuffledBooks(p, NodeOf(st, i), NodeOf(st', i), st.verdict.None?);
    }
  }

  lemma ShuffledBooks(p: Params, n: Node, n': Node, open: bool)
    requires NodeBooks(p, n, open) && Shuffled(n, n')
    ensures NodeBooks(p, n', open)
  {
    hide CountersBooks, IsEntry;
  }

  lemma CalmGrows(p: Params, st: Stage, st': Stage)
    requires Calm(p, st, st') && st'.token == st.token && st'.feed == st.feed && st'.verdict == st.verdict
    ensures Grows(p, st, st')
  {
    hide Retired;
    forall i | 0 <= i < |st.views|
      ensures st'.views[i].log == st.views[i].log
    {
      assert Shuffled(NodeOf(st, i), NodeOf(st', i));
    }
  }

  /** A calm event keeps the invariant once the queue is in order. */
  lemma CalmInvariant(p: Params, st: Stage, st': Stage)
    requires Invariant(p, st) && Calm(p, st, st') && Copies(st') && Untouched(p, st') && Fed(p, st')
    requires st'.token == st.token && st'.feed == st.feed && st'.verdict == st.verdict
    requires forall d :: d in st'.queue ==> d.id in p.ids
    requires forall x :: x in st'.arrived ==> x in p.ids
    requires st'.emitted == st.emitted
    ensures Invariant(p, st')
  {
    assert |st.views| == |st'.views| == |st'.backups| == |st.backups| == p.n;
    hide Books, Calm, Concluded, Copies, Untouched, Fed, TokenOk, Settled, Grows;
    CalmBooks(p, st, st');
    CalmConcluded(p, st, st');
    CalmGrows(p, st, st');
    GrowsKeepsToken(p, st, st');
    GrowsKeepsSettled(p, st, st');
  }

  lemma SameLogs(p: Params, st: Stage, st': Stage)
    requires |st.views| == |st'.views|
    requires forall i :: 0 <= i < |st.views| ==> st.views[i].log == st'.views[i].log
    ensures forall x :: Logged(p, st, x) == Logged(p, st', x)
  {
    assert Logs(st.views) == Logs(st'.views);
  }

  /** One more arrival takes nothing away from what is over, unless it arrives again. */
  lemma ArriveCalm(p: Params, st: Stage, id: nat)
    requires |st.views| == |st.backups|
    ensures Calm(p, st, Next(p, st, Arrive(id)))
  {
    var st' := Next(p, st, Arrive(id));
    SameLogs(p, st, st');
    hide Logged;
    forall x | Retired(p, st, x) && st'.arrived[x] <= 1
      ensures Retired(p, st', x)
    {
      assert x != id;
    }
  }

  lemma ArriveInvariant(p: Params, st: Stage, id: nat)
    requires Honest(p, st, Arrive(id)) && Invariant(p, st)
    ensures Invariant(p, Next(p, st, Arrive(id)))
  {
    var st' := Next(p, st, Arrive(id));
    ArriveQueue(p, st, id);
    ArriveCalm(p, st, id);
    ArriveFed(p, st, id);
    hide Invariant, Calm, Copies, Untouched, Fed;
    CalmInvariant(p, st, st');
  }

  lemma ArriveQueue(p: Params, st: Stage, id: nat)
    requires Copies(st) && Untouched(p, st)
    ensures Copies(Next(p, st, Arrive(id))) && Untouched(p, Next(p, st, Arrive(id)))
  {
    var st' := Next(p, st, Arrive(id));
    SameLogs(p, st, st');
    hide Logged;
    assert forall x :: x != id ==> st'.arrived[x] == st.arrived[x];
    assert forall x, r :: x != id ==> st'.queue[Delivery(x, r)] == st.queue[Delivery(x, r)];
  }

  lemma ArriveFed(p: Params, st: Stage, id: nat)
    requires Honest(p, st, Arrive(id)) && Books(p, st) && Fed(p, st)
    ensures var st' := Next(p, st, Arrive(id));
      && Fed(p, st')
      && (forall d :: d in st'.queue ==> d.id in p.ids)
      && (forall x :: x in st'.arrived ==> x in p.ids)
  {
    hide NodeBooks;
  }

  /** A copy that is handed back is flagged; nothing else changes. */
  lemma RedeliverInvariant(p: Params, st: Stage, d: Delivery)
    requires Enabled(p, st, Redeliver(d)) && Invariant(p, st)
    ensures Invariant(p, Next(p, st, Redeliver(d)))
  {
    var st' := Next(p, st, Redeliver(d));
    RedeliverQueue(p, st, d);
    RedeliverCalm(p, st, d);
    RedeliverIds(p, st, d);
    hide Calm, Copies, Untouched, NodeBooks, Concluded, TokenOk, Settled;
    CalmInvariant(p, st, st');
  }

  lemma RedeliverIds(p: Params, st: Stage, d: Delivery)
    requires Enabled(p, st, Redeliver(d)) && forall d :: d in st.queue ==> d.id in p.ids
    ensures forall d' :: d' in Next(p, st, Redeliver(d)).queue ==> d'.id in p.ids
  {
  }

  lemma RedeliverQueue(p: Params, st: Stage, d: Delivery)
    requires Enabled(p, st, Redeliver(d)) && Copies(st) && Untouched(p, st)
    ensures Copies(Next(p, st, Redeliver(d))) && Untouched(p, Next(p, st, Redeliver(d)))
  {
    var st' := Next(p, st, Redeliver(d));
    SameLogs(p, st, st');
    hide Logged;
    assert d == Delivery(d.id, true) || d == Delivery(d.id, false);
  }

  lemma RedeliverCalm(p: Params, st: Stage, d: Delivery)
    requires Enabled(p, st, Redeliver(d)) && |st.views| == |st.backups|
    ensures Calm(p, st, Next(p, st, Redeliver(d)))
  {
    var st' := Next(p, st, Redeliver(d));
    SameLogs(p, st, st');
    hide Logged;
    forall x | Retired(p, st, x)
      ensures Retired(p, st', x)
    {
      assert d.id != x;
    }
  }

  lemma NodeEventCalm(p: Params, st: Stage, i: nat, n: Node)
    requires i < |st.views| == |st.backups| && Shuffled(NodeOf(st, i), n)
    ensures Calm(p, st, WithNode(st, i, n))
    ensures forall x :: Logged(p, st, x) == Logged(p, WithNode(st, i, n), x)
  {
    SameLogs(p, st, WithNode(st, i, n));
    hide Logged;
  }

  /** A replica that goes on with a memory it had keeps the invariant. */
  lemma NodeEventInvariant(p: Params, st: Stage, i: nat, n: Node)
    requires i < |st.views| == |st.backups| && Shuffled(NodeOf(st, i), n) && Invariant(p, st)
    ensures Invariant(p, WithNode(st, i, n))
  {
    NodeEventCalm(p, st, i, n);
    hide Calm, NodeBooks, Concluded, TokenOk, Settled, Logged, Shuffled;
    CalmInvariant(p, st, WithNode(st, i, n));
  }

  /** Restarts and messages of other clients exchange memories, and log nothing. */
  lemma AsideShuffles(n: Node, outcome: Outcome)
    ensures Shuffled(n, Restarted(n)) && Shuffled(n, NodeAside(n, outcome))
  {
  }

  lemma EofInvariant(p: Params, st: Stage, a: Account)
    requires Enabled(p, st, EofArrives(a)) && Honest(p, st, EofArrives(a)) && Invariant(p, st)
    ensures Invariant(p, Next(p, st, EofArrives(a)))
  {
    var st' := Next(p, st, EofArrives(a));
    assert st.verdict.None?;
    EofFed(p, st, a);
    SameRecords(p, st, st');
    hide Books, Fed, TokenOk, Custody;
  }

  lemma EofFed(p: Params, st: Stage, a: Account)
    requires Enabled(p, st, EofArrives(a)) && Honest(p, st, EofArrives(a)) && Books(p, st) && st.verdict.None?
    ensures var st' := Next(p, st, EofArrives(a)); Books(p, st') && Fed(p, st') && TokenOk(p, st')
  {
    hide NodeBooks;
    var st' := Next(p, st, EofArrives(a));
    forall i | 0 <= i < p.n
      ensures NodeBooks(p, NodeOf(st', i), st'.verdict.None?)
    {
      assert NodeBooks(p, NodeOf(st, i), st.verdict.None?);
    }
  }

  // ---------- the token's round ----------

  ghost function Members(s: seq<nat>): set<nat> {
    set x | x in s
  }

  function IdsUpTo(n: nat): (r: set<nat>)
    ensures |r| == n
    ensures forall x :: x in r <==> 1 <= x <= n
  {
    if n == 0 then {} else IdsUpTo(n - 1) + {n}
  }

  lemma {:induction false} DistinctCount(s: seq<nat>)
    requires Distinct(s)
    ensures |Members(s)| == |s|
  {
    if s != [] {
      var front, last := s[..|s| - 1], s[|s| - 1];
      DistinctCount(front);
      assert last !in front;
      assert Members(s) == Members(front) + {last} by {
        assert s == front + [last];
      }
    }
  }

  lemma SubsetCount(a: set<nat>, b: set<nat>)
    requires a <= b
    ensures |a| <= |b|
    ensures |a| == |b| ==> a == b
  {
    assert b == a + (b - a);
    assert |b| == |a| + |b - a|;
  }

  /** n distinct replica ids are all the replica ids. */
  lemma FullCircle(n: nat, seen: seq<nat>)
    requires SeenOk(n, seen)
    ensures |seen| <= n
    ensures |seen| == n ==> forall r :: 1 <= r <= n ==> r in seen
  {
    DistinctCount(seen);
    SubsetCount(Members(seen), IdsUpTo(n));
    if |seen| == n {
      forall r | 1 <= r <= n
        ensures r in seen
      {
        assert r in Members(seen);
      }
    }
  }

  /** Filling an empty part adds its elements, its length and its sent records. */
  lemma FillPart(parts: seq<seq<ProcessedMessage>>, i: nat, more: seq<ProcessedMessage>)
    requires i < |parts| && parts[i] == []
    ensures var all := Flatten(parts[i := more]);
      && multiset(all) == multiset(Flatten(parts) + more)
      && |all| == |Flatten(parts)| + |more|
      && |SentOnly(all)| == |SentOnly(Flatten(parts))| + |SentOnly(more)|
      && forall e :: e in all <==> e in Flatten(parts) || e in more
  {
    var all, joined := Flatten(parts[i := more]), Flatten(parts) + more;
    FlattenUpdate(parts, i, more);
    assert multiset(all) == multiset(joined);
    assert |all| == |multiset(all)| == |joined|;
    SentOnlyReordered(all, joined);
    assert |SentOnly(all)| == |multiset(SentOnly(all))| == |SentOnly(joined)|;
    SentOnlyAppend(Flatten(parts), more);
    assert forall e :: e in all <==> e in multiset(all);
    assert forall e :: e in joined <==> e in multiset(joined);
  }

  /** A replica's part joins the snapshot: what it counts, and what it counts unsuspected is over. */
  lemma SnapshotPart(p: Params, st: Stage, i: nat, m: Counters, seen: seq<nat>, received: int, sent: int,
                     duplicates: seq<nat>, snap: seq<seq<ProcessedMessage>>)
    requires |st.views| == p.n && i < p.n && i + 1 !in seen && multiset(m.counted) <= multiset(st.views[i].log)
    requires SnapOk(p, st, seen, received, sent, duplicates, snap)
    requires Over(p, st, m)
    ensures SnapOk(p, st, seen + [i + 1], received + |m.counted|, sent + |SentOnly(m.counted)|,
                   duplicates + m.duplicates, snap[i := m.counted])
  {
    hide Retired, SentOnly;
    FillPart(snap, i, m.counted);
  }

  /** Discovery at replica i adds its counters, its suspects and what it counts. */
  lemma Snapshot(p: Params, st: Stage, i: nat, seen: seq<nat>, received: int, sent: int,
                 duplicates: seq<nat>, snap: seq<seq<ProcessedMessage>>)
    requires Open(p, st) && i < p.n == |st.views| == |st.backups| && i + 1 !in seen
    requires SnapOk(p, st, seen, received, sent, duplicates, snap)
    ensures var v := st.views[i];
      SnapOk(p, st, seen + [i + 1], received + v.received, sent + v.sent, duplicates + v.duplicates,
             snap[i := st.backups[i].counted])
  {
    hide SnapOk, Fed, Over, Copies, Untouched, IsEntry, SentOnly;
    assert NodeBooks(p, NodeOf(st, i), true) && NodeOver(p, st, NodeOf(st, i));
    SnapshotPart(p, st, i, Now(NodeOf(st, i)), seen, received, sent, duplicates, snap);
  }

  /** A log search finds every record of a suspect, and nothing that is not in the log. */
  lemma SearchOfLog(p: Params, log: seq<ProcessedMessage>, suspects: seq<nat>, part: seq<ProcessedMessage>)
    requires forall e :: e in log ==> IsEntry(p, e)
    requires multiset(part) <= multiset(log)
    ensures forall e :: e in part && e.id in suspects ==> multiset(part)[e] <= multiset(Search(log, suspects))[e]
    ensures forall e :: e in Search(log, suspects) ==> IsEntry(p, e)
  {
    forall e: ProcessedMessage
      ensures multiset(Search(log, suspects))[e] == if e.id in suspects then multiset(log)[e] else 0
    {
      SearchCount(log, suspects, e);
    }
    forall e | e in Search(log, suspects)
      ensures e in log
    {
      assert e in multiset(Search(log, suspects)) && e in multiset(log);
    }
  }

  lemma CollectPart(p: Params, i: nat, seen: seq<nat>, suspects: seq<nat>, records: seq<ProcessedMessage>,
                    snap: seq<seq<ProcessedMessage>>, found: seq<seq<ProcessedMessage>>, more: seq<ProcessedMessage>)
    requires FoundOk(p, seen, suspects, records, snap, found)
    requires i < p.n && i + 1 !in seen
    requires forall e :: e in snap[i] && e.id in suspects ==> multiset(snap[i])[e] <= multiset(more)[e]
    requires forall e :: e in more ==> IsEntry(p, e)
    ensures FoundOk(p, seen + [i + 1], suspects, records + more, snap, found[i := more])
  {
    hide IsEntry, Flatten, SentOnly;
    FillPart(found, i, more);
    RecordsGrow(records, Flatten(found), more);
  }

  lemma RecordsGrow(records: seq<ProcessedMessage>, all: seq<ProcessedMessage>, more: seq<ProcessedMessage>)
    requires multiset(records) == multiset(all)
    ensures multiset(records + more) == multiset(all + more)
  {
  }

  /** Aggregation at replica i adds every suspected record that its log holds. */
  lemma Collect(p: Params, st: Stage, i: nat, seen: seq<nat>, suspects: seq<nat>, records: seq<ProcessedMessage>,
                snap: seq<seq<ProcessedMessage>>, found: seq<seq<ProcessedMessage>>)
    returns (found': seq<seq<ProcessedMessage>>)
    requires Open(p, st) && i < p.n == |st.views| == |st.backups| == |snap| && i + 1 !in seen
    requires FoundOk(p, seen, suspects, records, snap, found)
    requires multiset(snap[i]) <= multiset(st.views[i].log)
    ensures FoundOk(p, seen + [i + 1], suspects, records + Search(st.views[i].log, suspects), snap, found')
  {
    assert NodeBooks(p, NodeOf(st, i), st.verdict.None?);
    assert i < |found|;
    SearchOfLog(p, st.views[i].log, suspects, snap[i]);
    hide Open, FoundOk, Search, IsEntry;
    CollectPart(p, i, seen, suspects, records, snap, found, Search(st.views[i].log, suspects));
    found' := found[i := Search(st.views[i].log, suspects)];
  }

  // ---------- the decision ----------

  ghost function Entries(p: Params, ids: set<nat>): set<ProcessedMessage> {
    set x | x in ids :: Entry(p, x)
  }

  lemma {:induction false} EntriesCount(p: Params, ids: set<nat>)
    ensures |Entries(p, ids)| == |ids|
    decreases |ids|
  {
    if ids != {} {
      var x :| x in ids;
      EntriesCount(p, ids - {x});
      assert Entries(p, ids) == Entries(p, ids - {x}) + {Entry(p, x)};
    }
  }

  lemma SentEntriesCount(p: Params)
    requires ValidParams(p)
    ensures |set e | e in Entries(p, p.ids) && e.sent| == |p.emits|
  {
    assert (set e | e in Entries(p, p.ids) && e.sent) == Entries(p, p.emits);
    EntriesCount(p, p.emits);
  }

  /** What the deciding replica knows about its token. */
  ghost predicate Collected(p: Params, st: Stage, received: int, sent: int, dups: seq<nat>,
                            records: seq<ProcessedMessage>,
                            snap: seq<seq<ProcessedMessage>>, found: seq<seq<ProcessedMessage>>)
  {
    && ValidParams(p) && Books(p, st) && Fed(p, st) && st.feed.Some?
    && SnapOk(p, st, Everyone(p.n), received, sent, dups, snap)
    && FoundOk(p, Everyone(p.n), dups + st.feed.value.duplicates, records, snap, found)
  }

  /** A suspected record is found at least as often as it was counted; an unsuspected one was counted at most once. */
  lemma CountedOrFound(p: Params, st: Stage, received: int, sent: int, dups: seq<nat>,
                       records: seq<ProcessedMessage>,
                       snap: seq<seq<ProcessedMessage>>, found: seq<seq<ProcessedMessage>>, x: nat)
    requires Collected(p, st, received, sent, dups, records, snap, found)
    requires x in p.ids
    ensures multiset(Flatten(snap))[Entry(p, x)] <= Logged(p, st, x)
    ensures multiset(Flatten(snap))[Entry(p, x)] <= multiset(Flatten(found))[Entry(p, x)]
         || multiset(Flatten(snap))[Entry(p, x)] <= 1
  {
    var e := Entry(p, x);
    FlattenCountAtMost(snap, Logs(st.views), e);
    if x in dups + st.feed.value.duplicates {
      forall i | 0 <= i < p.n
        ensures multiset(snap[i])[e] <= multiset(found[i])[e]
      {
        assert i + 1 == Everyone(p.n)[i];
      }
      FlattenCountAtMost(snap, found, e);
    } else if multiset(Flatten(snap))[e] > 0 {
      assert e in Flatten(snap);
      assert Retired(p, st, x);
    }
  }

  lemma OnlyEntries(p: Params, st: Stage, received: int, sent: int, dups: seq<nat>,
                    records: seq<ProcessedMessage>,
                    snap: seq<seq<ProcessedMessage>>, found: seq<seq<ProcessedMessage>>)
    requires Collected(p, st, received, sent, dups, records, snap, found)
    ensures forall e :: e in Flatten(snap) || e in Flatten(found) ==> e in Entries(p, p.ids)
  {
    hide IsEntry, Flatten, SentOnly;
    forall e | e in Flatten(snap) || e in Flatten(found)
      ensures e in Entries(p, p.ids)
    {
      FlattenHas(snap, e);
      FlattenHas(found, e);
      if i :| 0 <= i < p.n && e in snap[i] {
        SnappedIsEntry(p, st, snap[i], i, e);
      }
      EntryOf(p, e);
    }
  }

  lemma SnappedIsEntry(p: Params, st: Stage, part: seq<ProcessedMessage>, i: nat, e: ProcessedMessage)
    requires Books(p, st) && i < p.n && e in part && (multiset(part) <= multiset(st.views[i].log) || part == [])
    ensures IsEntry(p, e)
  {
    hide IsEntry, CountersBooks;
    assert NodeBooks(p, NodeOf(st, i), st.verdict.None?);
    assert e in multiset(part) && e in multiset(st.views[i].log);
  }

  lemma EntryOf(p: Params, e: ProcessedMessage)
    ensures IsEntry(p, e) ==> e in Entries(p, p.ids)
  {
  }

  /** The equality R - D = S can only be reached when every single message has been
      processed; the corrected sent count is then exact, and whatever is not on the list
      of suspects is over for good. */
  lemma Decision(p: Params, st: Stage, received: int, sent: int, dups: seq<nat>,
                 records: seq<ProcessedMessage>,
                 snap: seq<seq<ProcessedMessage>>, found: seq<seq<ProcessedMessage>>)
    requires Collected(p, st, received, sent, dups, records, snap, found)
    ensures received - Repeats(records) <= |p.ids|
    ensures received - Repeats(records) == |p.ids| ==>
      Decided(p, st, Account(sent - Repeats(SentOnly(records)), dups + st.feed.value.duplicates))
  {
    CollectedFacts(p, st, received, sent, dups, records, snap, found);
    hide Collected, Repeats, SentOnly, Flatten, Entry, Decided, Entries;
    OnlyEntries(p, st, received, sent, dups, records, snap, found);
    EachCountedOrFound(p, st, received, sent, dups, records, snap, found);
    EqualityMeans(Entries(p, p.ids), Flatten(snap), Flatten(found), records);
    EntriesCount(p, p.ids);
    SentEntriesCount(p);
    if received - Repeats(records) == |p.ids| {
      CountedAreOver(p, st, received, sent, dups, records, snap, found);
    }
  }

  lemma CollectedFacts(p: Params, st: Stage, received: int, sent: int, dups: seq<nat>,
                       records: seq<ProcessedMessage>,
                       snap: seq<seq<ProcessedMessage>>, found: seq<seq<ProcessedMessage>>)
    requires Collected(p, st, received, sent, dups, records, snap, found)
    ensures ValidParams(p) && st.feed.Some?
    ensures received == |Flatten(snap)| && sent == |SentOnly(Flatten(snap))|
    ensures multiset(records) == multiset(Flatten(found))
  {
  }

  lemma EachCountedOrFound(p: Params, st: Stage, received: int, sent: int, dups: seq<nat>,
                           records: seq<ProcessedMessage>,
                           snap: seq<seq<ProcessedMessage>>, found: seq<seq<ProcessedMessage>>)
    requires Collected(p, st, received, sent, dups, records, snap, found)
    ensures forall e :: e in Entries(p, p.ids) ==>
      multiset(Flatten(snap))[e] <= multiset(Flatten(found))[e] || multiset(Flatten(snap))[e] <= 1
  {
    forall e | e in Entries(p, p.ids)
      ensures multiset(Flatten(snap))[e] <= multiset(Flatten(found))[e] || multiset(Flatten(snap))[e] <= 1
    {
      CountedOrFound(p, st, received, sent, dups, records, snap, found, e.id);
    }
  }

  lemma CountedAreOver(p: Params, st: Stage, received: int, sent: int, dups: seq<nat>,
                       records: seq<ProcessedMessage>,
                       snap: seq<seq<ProcessedMessage>>, found: seq<seq<ProcessedMessage>>)
    requires Collected(p, st, received, sent, dups, records, snap, found)
    requires forall e :: e in Entries(p, p.ids) ==> e in Flatten(snap)
    requires sent - Repeats(SentOnly(records)) == |p.emits|
    ensures Decided(p, st, Account(sent - Repeats(SentOnly(records)), dups + st.feed.value.duplicates))
  {
    forall x | x in p.ids
      ensures Logged(p, st, x) >= 1
      ensures x !in dups + st.feed.value.duplicates && st.arrived[x] <= 1 ==> Retired(p, st, x)
    {
      CountedOrFound(p, st, received, sent, dups, records, snap, found, x);
      assert Entry(p, x) in Entries(p, p.ids);
      assert multiset(Flatten(snap))[Entry(p, x)] >= 1;
      hide Retired, Logged;
    }
  }

  // ---------- the hops ----------

  /** The stage between two rounds or inside one: everything but the token itself. */
  ghost predicate Open(p: Params, st: Stage) {
    ValidParams(p) && Books(p, st) && Custody(p, st) && Fed(p, st) && st.feed.Some? && st.verdict.None?
  }

  /** Exchanging the token for a good one keeps the invariant. */
  lemma Retoken(p: Params, st: Stage, token: Option<Message>)
    requires Books(p, st) && Custody(p, st) && Fed(p, st) && Settled(p, st)
    requires TokenOk(p, st.(token := token))
    ensures Invariant(p, st.(token := token))
  {
    hide TokenOk, Custody, NodeBooks;
    var st' := st.(token := token);
    SameRecords(p, st, st');
    hide Retired, Logged;
    forall i | 0 <= i < p.n
      ensures NodeBooks(p, NodeOf(st', i), st'.verdict.None?)
    {
      assert NodeBooks(p, NodeOf(st, i), st.verdict.None?);
    }
  }

  /** A hop that only forwards a good token keeps the invariant. */
  lemma Forwards(p: Params, st: Stage, i: nat, h: Hop)
    requires Open(p, st) && i < p.n && h.view == st.views[i] && h.verdict.None? && h.out != []
    requires TokenOk(p, st.(token := Some(h.out[0])))
    ensures Invariant(p, Applied(st, i, h))
  {
    assert st.views[i := h.view] == st.views;
    assert Applied(st, i, h) == st.(token := Some(h.out[0]));
    hide Books, Custody, Fed, TokenOk, Invariant, Decided;
    Retoken(p, st, Some(h.out[0]));
  }

  /** Logs, suspects, queue and counts decide what is over; token, verdict and senders do not. */
  lemma SameRecords(p: Params, st: Stage, st': Stage)
    requires |st.views| == |st'.views| == |st.backups| && st.backups == st'.backups
    requires forall i :: 0 <= i < |st.views| ==>
      st.views[i].log == st'.views[i].log && st.views[i].duplicates == st'.views[i].duplicates
    requires st.queue == st'.queue && st.arrived == st'.arrived && st.emitted == st'.emitted
    ensures forall x :: Logged(p, st, x) == Logged(p, st', x)
    ensures forall x :: Retired(p, st, x) == Retired(p, st', x)
    ensures Custody(p, st) ==> Custody(p, st')
  {
    SameLogs(p, st, st');
    hide Logged;
    assert forall x :: Retired(p, st, x) == Retired(p, st', x);
    if Concluded(p, st) {
      hide Retired;
      forall i | 0 <= i < |st.views|
        ensures NodeOver(p, st', NodeOf(st', i))
      {
        assert NodeOver(p, st, NodeOf(st, i));
      }
    }
  }

  /** Discovery goes on: the token with one more snapshot is a good token. */
  lemma DiscoveryToken(p: Params, st: Stage, n: Message, snap: seq<seq<ProcessedMessage>>)
    requires Open(p, st) && n.EofDiscovery?
    requires Account(n.originalMessagesSent, n.originalPossibleDuplicates) == st.feed.value
    requires SeenOk(p.n, n.replicaIdSeen) && |n.replicaIdSeen| < p.n
    requires SnapOk(p, st, n.replicaIdSeen, n.messagesReceived, n.messagesSent, n.possibleDuplicates, snap)
    ensures TokenOk(p, st.(token := Some(n)))
  {
    var st' := st.(token := Some(n));
    SameRecords(p, st, st');
    assert SnapOk(p, st', n.replicaIdSeen, n.messagesReceived, n.messagesSent, n.possibleDuplicates, snap);
  }

  lemma AggregationToken(p: Params, st: Stage, n: Message,
                         snap: seq<seq<ProcessedMessage>>, found: seq<seq<ProcessedMessage>>)
    requires Open(p, st) && n.EofAggregation?
    requires Account(n.originalMessagesSent, n.originalPossibleDuplicates) == st.feed.value
    requires SeenOk(p.n, n.replicaIdSeen) && |n.replicaIdSeen| < p.n
    requires SnapOk(p, st, Everyone(p.n), n.messagesReceived, n.messagesSent, n.possibleDuplicates, snap)
    requires FoundOk(p, n.replicaIdSeen, n.possibleDuplicates + n.originalPossibleDuplicates, n.processedBy,
                     snap, found)
    ensures TokenOk(p, st.(token := Some(n)))
  {
    var st' := st.(token := Some(n));
    SameRecords(p, st, st');
    assert SnapOk(p, st', Everyone(p.n), n.messagesReceived, n.messagesSent, n.possibleDuplicates, snap);
  }

  lemma SnapOfEveryone(p: Params, st: Stage, seen: seq<nat>, received: int, sent: int,
                       duplicates: seq<nat>, snap: seq<seq<ProcessedMessage>>)
    requires |st.views| == p.n && SnapOk(p, st, seen, received, sent, duplicates, snap)
    requires SeenOk(p.n, seen) && |seen| == p.n
    ensures SnapOk(p, st, Everyone(p.n), received, sent, duplicates, snap)
  {
    FullCircle(p.n, seen);
    assert forall i {:trigger snap[i]} :: 0 <= i < p.n ==> Everyone(p.n)[i] == i + 1 && i + 1 in seen;
  }

  lemma FoundOfEveryone(p: Params, seen: seq<nat>, suspects: seq<nat>, records: seq<ProcessedMessage>,
                        snap: seq<seq<ProcessedMessage>>, found: seq<seq<ProcessedMessage>>)
    requires FoundOk(p, seen, suspects, records, snap, found)
    requires SeenOk(p.n, seen) && |seen| == p.n
    ensures FoundOk(p, Everyone(p.n), suspects, records, snap, found)
  {
    FullCircle(p.n, seen);
    assert forall i {:trigger found[i]} :: 0 <= i < p.n ==> Everyone(p.n)[i] == i + 1 && i + 1 in seen;
  }

  /** Before aggregation starts nothing has been found. */
  lemma NothingFoundYet(p: Params, suspects: seq<nat>, snap: seq<seq<ProcessedMessage>>)
    requires |snap| == p.n
    ensures FoundOk(p, [], suspects, [], snap, seq(p.n, _ => []))
  {
    NothingFlat<ProcessedMessage>(p.n);
  }

  lemma {:induction false} NothingFlat<T>(n: nat)
    ensures Flatten(seq<seq<T>>(n, _ => [])) == []
  {
    if n > 0 {
      NothingFlat<T>(n - 1);
      assert seq<seq<T>>(n, _ => [])[1..] == seq<seq<T>>(n - 1, _ => []);
    }
  }

  lemma SeenGrows(n: nat, seen: seq<nat>, r: nat)
    requires SeenOk(n, seen) && 1 <= r <= n && r !in seen
    ensures SeenOk(n, seen + [r])
  {
  }

  /** Not the last replica of the round: the updated token goes on. */
  lemma DiscoveryForwards(p: Params, i: nat, v: View, m: Message)
    requires m.EofDiscovery? && i + 1 !in m.replicaIdSeen && |m.replicaIdSeen| + 1 < p.n
    ensures HandleDiscovery(ConfigOf(p, i), v, m)
         == Hop(v, [UpdateDiscovery(ConfigOf(p, i), v, m)], true, 0, None)
  {
  }

  /** The last replica of discovery is the first of aggregation. */
  lemma DiscoveryCompletes(p: Params, i: nat, v: View, m: Message)
    requires m.EofDiscovery? && i + 1 !in m.replicaIdSeen && |m.replicaIdSeen| + 1 == p.n
    ensures HandleDiscovery(ConfigOf(p, i), v, m)
         == HandleAggregation(ConfigOf(p, i), v, ToAggregation(UpdateDiscovery(ConfigOf(p, i), v, m)))
  {
  }

  lemma AggregationForwards(p: Params, i: nat, v: View, m: Message)
    requires m.EofAggregation? && i + 1 !in m.replicaIdSeen && |m.replicaIdSeen| + 1 < p.n
    ensures HandleAggregation(ConfigOf(p, i), v, m)
         == Hop(v, [UpdateAggregation(ConfigOf(p, i), v, m)], true, 0, None)
  {
  }

  /** The last replica closes the stage, or starts the round again from the EOF it came from. */
  lemma AggregationDecides(p: Params, i: nat, v: View, m: Message, records: seq<ProcessedMessage>)
    requires m.EofAggregation? && i + 1 !in m.replicaIdSeen && |m.replicaIdSeen| + 1 == p.n
    requires records == UpdateAggregation(ConfigOf(p, i), v, m).processedBy
    ensures var h := HandleAggregation(ConfigOf(p, i), v, m);
      var a := Account(m.messagesSent - Repeats(SentOnly(records)),
                       m.possibleDuplicates + m.originalPossibleDuplicates);
      if m.messagesReceived - Repeats(records) == m.originalMessagesSent
      then h.ack && h.verdict == Some(a) && h.view == v.(sent := a.sent, announced := a.duplicates)
           && h.out == (if p.n > 1 then [EofFinish(m.clientId, [i + 1])] else [])
      else h == Hop(v, [Eof(m.clientId, m.originalMessagesSent, m.originalPossibleDuplicates)], true, 0, None)
  {
    assert [] + [i + 1] == [i + 1];
  }

  lemma RestartToken(p: Params, st: Stage, c: nat)
    requires Open(p, st)
    ensures TokenOk(p, st.(token := Some(Eof(c, st.feed.value.sent, st.feed.value.duplicates))))
  {
  }

  /** The token of a discovery that replica i has not handled yet. */
  ghost predicate Discovering(p: Params, st: Stage, i: nat, m: Message, snap: seq<seq<ProcessedMessage>>) {
    && Open(p, st) && i < p.n
    && m.EofDiscovery? && Account(m.originalMessagesSent, m.originalPossibleDuplicates) == st.feed.value
    && SeenOk(p.n, m.replicaIdSeen) && |m.replicaIdSeen| < p.n && i + 1 !in m.replicaIdSeen
    && SnapOk(p, st, m.replicaIdSeen, m.messagesReceived, m.messagesSent, m.possibleDuplicates, snap)
  }

  lemma DiscoveryUpdate(p: Params, st: Stage, i: nat, m: Message, snap: seq<seq<ProcessedMessage>>)
    returns (n: Message, snap': seq<seq<ProcessedMessage>>)
    requires Discovering(p, st, i, m, snap)
    ensures i < |st.views| == |st.backups| == p.n == |snap'| && n == UpdateDiscovery(ConfigOf(p, i), st.views[i], m)
    ensures SeenOk(p.n, n.replicaIdSeen)
    ensures SnapOk(p, st, n.replicaIdSeen, n.messagesReceived, n.messagesSent, n.possibleDuplicates, snap')
  {
    assert |st.views| == |st.backups| == |snap| == p.n;
    hide Open, SnapOk, SeenOk;
    n := UpdateDiscovery(ConfigOf(p, i), st.views[i], m);
    Snapshot(p, st, i, m.replicaIdSeen, m.messagesReceived, m.messagesSent, m.possibleDuplicates, snap);
    SeenGrows(p.n, m.replicaIdSeen, i + 1);
    snap' := snap[i := st.backups[i].counted];
  }

  lemma DiscoveryGoesOn(p: Params, st: Stage, i: nat, m: Message, snap: seq<seq<ProcessedMessage>>)
    requires Discovering(p, st, i, m, snap) && |m.replicaIdSeen| + 1 < p.n
    ensures i < |st.views|
    ensures var h := HandleDiscovery(ConfigOf(p, i), st.views[i], m); h.ack && Invariant(p, Applied(st, i, h))
  {
    hide Open, SnapOk, SeenOk, TokenOk, Invariant, HandleDiscovery;
    OpenFacts(p, st);
    var n, snap' := DiscoveryUpdate(p, st, i, m, snap);
    DiscoveryToken(p, st, n, snap');
    DiscoveryForwards(p, i, st.views[i], m);
    Forwards(p, st, i, Hop(st.views[i], [n], true, 0, None));
  }

  /** The last replica of discovery goes straight on as the first of aggregation. */
  lemma DiscoveryEnds(p: Params, st: Stage, i: nat, m: Message, snap: seq<seq<ProcessedMessage>>)
    requires Discovering(p, st, i, m, snap) && |m.replicaIdSeen| + 1 == p.n
    ensures i < |st.views|
    ensures var h := HandleDiscovery(ConfigOf(p, i), st.views[i], m); h.ack && Invariant(p, Applied(st, i, h))
  {
    hide Open, SnapOk, FoundOk, SeenOk, Invariant, HandleDiscovery, HandleAggregation;
    OpenFacts(p, st);
    var n, snap' := DiscoveryUpdate(p, st, i, m, snap);
    SnapOfEveryone(p, st, n.replicaIdSeen, n.messagesReceived, n.messagesSent, n.possibleDuplicates, snap');
    NothingFoundYet(p, n.possibleDuplicates + n.originalPossibleDuplicates, snap');
    NobodySeenOk(p.n);
    DiscoveryCompletes(p, i, st.views[i], m);
    AggregationHop(p, st, i, ToAggregation(n), snap', seq(p.n, _ => []));
  }

  lemma NobodySeenOk(n: nat)
    ensures SeenOk(n, [])
  {
  }

  lemma DiscoveryHop(p: Params, st: Stage, i: nat, m: Message, snap: seq<seq<ProcessedMessage>>)
    requires Discovering(p, st, i, m, snap)
    ensures i < |st.views|
    ensures var h := HandleDiscovery(ConfigOf(p, i), st.views[i], m); h.ack && Invariant(p, Applied(st, i, h))
  {
    hide Open, SnapOk, SeenOk, Invariant, HandleDiscovery;
    if |m.replicaIdSeen| + 1 < p.n {
      DiscoveryGoesOn(p, st, i, m, snap);
    } else {
      DiscoveryEnds(p, st, i, m, snap);
    }
  }

  /** The token of an aggregation that replica i has not handled yet. */
  ghost predicate Aggregating(p: Params, st: Stage, i: nat, m: Message,
                              snap: seq<seq<ProcessedMessage>>, found: seq<seq<ProcessedMessage>>)
  {
    && Open(p, st) && i < p.n
    && m.EofAggregation? && Account(m.originalMessagesSent, m.originalPossibleDuplicates) == st.feed.value
    && SeenOk(p.n, m.replicaIdSeen) && |m.replicaIdSeen| < p.n && i + 1 !in m.replicaIdSeen
    && SnapOk(p, st, Everyone(p.n), m.messagesReceived, m.messagesSent, m.possibleDuplicates, snap)
    && FoundOk(p, m.replicaIdSeen, m.possibleDuplicates + m.originalPossibleDuplicates, m.processedBy, snap, found)
  }

  lemma OpenFacts(p: Params, st: Stage)
    requires Open(p, st)
    ensures |st.views| == |st.backups| == p.n
    ensures st.feed.Some? && st.feed.value.sent == |p.ids| && st.verdict.None?
  {
  }

  /** The update of the token at replica i finds everything suspected that replica i was counted for. */
  lemma AggregationUpdate(p: Params, st: Stage, i: nat, m: Message,
                          snap: seq<seq<ProcessedMessage>>, found: seq<seq<ProcessedMessage>>)
    returns (n: Message, found': seq<seq<ProcessedMessage>>)
    requires Aggregating(p, st, i, m, snap, found)
    ensures i < |st.views| == p.n && n == UpdateAggregation(ConfigOf(p, i), st.views[i], m)
    ensures SeenOk(p.n, n.replicaIdSeen)
    ensures FoundOk(p, n.replicaIdSeen, m.possibleDuplicates + m.originalPossibleDuplicates, n.processedBy,
                    snap, found')
  {
    hide Open, SnapOk, FoundOk, SeenOk, Search;
    var suspects := m.possibleDuplicates + m.originalPossibleDuplicates;
    OpenFacts(p, st);
    n := UpdateAggregation(ConfigOf(p, i), st.views[i], m);
    SnapAt(p, st, i, m.messagesReceived, m.messagesSent, m.possibleDuplicates, snap);
    found' := Collect(p, st, i, m.replicaIdSeen, suspects, m.processedBy, snap, found);
    SeenGrows(p.n, m.replicaIdSeen, i + 1);
  }

  lemma SnapAt(p: Params, st: Stage, i: nat, received: int, sent: int, dups: seq<nat>, snap: seq<seq<ProcessedMessage>>)
    requires |st.views| == p.n && i < p.n && SnapOk(p, st, Everyone(p.n), received, sent, dups, snap)
    ensures |snap| == p.n && multiset(snap[i]) <= multiset(st.views[i].log)
  {
    assert i + 1 == Everyone(p.n)[i];
  }

  lemma AggregationGoesOn(p: Params, st: Stage, i: nat, m: Message,
                          snap: seq<seq<ProcessedMessage>>, found: seq<seq<ProcessedMessage>>)
    requires Aggregating(p, st, i, m, snap, found) && |m.replicaIdSeen| + 1 < p.n
    ensures i < |st.views|
    ensures var h := HandleAggregation(ConfigOf(p, i), st.views[i], m); h.ack && Invariant(p, Applied(st, i, h))
  {
    hide Open, SnapOk, FoundOk, SeenOk, TokenOk, Invariant, HandleAggregation;
    OpenFacts(p, st);
    var n, found' := AggregationUpdate(p, st, i, m, snap, found);
    AggregationToken(p, st, n, snap, found');
    AggregationForwards(p, i, st.views[i], m);
    Forwards(p, st, i, Hop(st.views[i], [n], true, 0, None));
  }

  /** Nobody is left to ask: either the equality holds and the verdict is true, or the round starts again. */
  lemma AggregationEnds(p: Params, st: Stage, i: nat, m: Message,
                        snap: seq<seq<ProcessedMessage>>, found: seq<seq<ProcessedMessage>>)
    requires Aggregating(p, st, i, m, snap, found) && |m.replicaIdSeen| + 1 == p.n
    ensures i < |st.views|
    ensures var h := HandleAggregation(ConfigOf(p, i), st.views[i], m); h.ack && Invariant(p, Applied(st, i, h))
  {
    hide Open, SnapOk, FoundOk, SeenOk, TokenOk, Invariant, Decided, HandleAggregation, Repeats, SentOnly;
    OpenFacts(p, st);
    var n, found' := AggregationUpdate(p, st, i, m, snap, found);
    FoundOfEveryone(p, n.replicaIdSeen, m.possibleDuplicates + m.originalPossibleDuplicates, n.processedBy,
                    snap, found');
    OpenDecision(p, st, m.messagesReceived, m.messagesSent, m.possibleDuplicates, n.processedBy, snap, found');
    DecidingHop(p, st, i, m, n.processedBy);
  }

  lemma OpenDecision(p: Params, st: Stage, received: int, sent: int, dups: seq<nat>,
                     records: seq<ProcessedMessage>,
                     snap: seq<seq<ProcessedMessage>>, found: seq<seq<ProcessedMessage>>)
    requires Open(p, st)
    requires SnapOk(p, st, Everyone(p.n), received, sent, dups, snap)
    requires FoundOk(p, Everyone(p.n), dups + st.feed.value.duplicates, records, snap, found)
    ensures received - Repeats(records) == |p.ids| ==>
      Decided(p, st, Account(sent - Repeats(SentOnly(records)), dups + st.feed.value.duplicates))
  {
    hide Books, Custody, Fed, SnapOk, FoundOk, Decided, Repeats, SentOnly;
    Decision(p, st, received, sent, dups, records, snap, found);
  }

  lemma AggregationHop(p: Params, st: Stage, i: nat, m: Message,
                       snap: seq<seq<ProcessedMessage>>, found: seq<seq<ProcessedMessage>>)
    requires Aggregating(p, st, i, m, snap, found)
    ensures i < |st.views|
    ensures var h := HandleAggregation(ConfigOf(p, i), st.views[i], m); h.ack && Invariant(p, Applied(st, i, h))
  {
    hide Open, SnapOk, FoundOk, SeenOk, Invariant, HandleAggregation;
    if |m.replicaIdSeen| + 1 < p.n {
      AggregationGoesOn(p, st, i, m, snap, found);
    } else {
      AggregationEnds(p, st, i, m, snap, found);
    }
  }

  lemma DecidingHop(p: Params, st: Stage, i: nat, m: Message, records: seq<ProcessedMessage>)
    requires Open(p, st) && i < |st.views| == p.n
    requires m.EofAggregation? && Account(m.originalMessagesSent, m.originalPossibleDuplicates) == st.feed.value
    requires i + 1 !in m.replicaIdSeen && |m.replicaIdSeen| + 1 == p.n
    requires records == UpdateAggregation(ConfigOf(p, i), st.views[i], m).processedBy
    requires m.messagesReceived - Repeats(records) == |p.ids| ==>
      Decided(p, st, Account(m.messagesSent - Repeats(SentOnly(records)),
                             m.possibleDuplicates + m.originalPossibleDuplicates))
    ensures var h := HandleAggregation(ConfigOf(p, i), st.views[i], m); h.ack && Invariant(p, Applied(st, i, h))
  {
    hide Open, Invariant, TokenOk, Decided, HandleAggregation, UpdateAggregation, Repeats, SentOnly;
    OpenFacts(p, st);
    var h := HandleAggregation(ConfigOf(p, i), st.views[i], m);
    AggregationDecides(p, i, st.views[i], m, records);
    if h.verdict.None? {
      RestartToken(p, st, m.clientId);
      Forwards(p, st, i, h);
    } else {
      Closes(p, st, i, h);
    }
  }

  /** The deciding replica overwrites its sender's count and suspects; the records stay. */
  lemma Closes(p: Params, st: Stage, i: nat, h: Hop)
    requires Open(p, st) && i < p.n && h.verdict.Some? && Decided(p, st, h.verdict.value)
    requires var v := st.views[i];
      h.view == v.(sent := h.verdict.value.sent, announced := h.verdict.value.duplicates)
    requires h.out == [] || (p.n > 1 && h.out[0].EofFinish? && h.out[0].replicaIdSeen == [i + 1])
    ensures Invariant(p, Applied(st, i, h))
  {
    assert Fed(p, st) && |st.views| == p.n && st.feed.Some?;
    assert Fed(p, Applied(st, i, h));
    hide Books, Custody, TokenOk, Fed, Decided, Settled;
    ClosedBooks(p, st, i, h);
    ClosedSettled(p, st, i, h);
    FinishToken(p, Applied(st, i, h), i);
  }

  lemma ClosedSettled(p: Params, st: Stage, i: nat, h: Hop)
    requires i < |st.views| == |st.backups| && st.feed.Some? && h.verdict.Some? && Decided(p, st, h.verdict.value)
    requires h.view.log == st.views[i].log && h.view.duplicates == st.views[i].duplicates
    ensures Settled(p, Applied(st, i, h))
    ensures Custody(p, st) ==> Custody(p, Applied(st, i, h))
  {
    SameRecords(p, st, Applied(st, i, h));
    hide Retired, Logged, Custody;
  }

  /** After the verdict the token is gone, or it tells the other replicas to finish. */
  lemma FinishToken(p: Params, st: Stage, i: nat)
    requires |st.views| == p.n && i < p.n && st.feed.Some? && st.verdict.Some?
    requires st.token.Some? ==>
      p.n > 1 && st.token.value.EofFinish? && st.token.value.replicaIdSeen == [i + 1]
    ensures TokenOk(p, st)
  {
  }

  lemma ClosedBooks(p: Params, st: Stage, i: nat, h: Hop)
    requires Books(p, st) && i < p.n && h.verdict.Some?
    requires var v := st.views[i];
      h.view == v.(sent := h.verdict.value.sent, announced := h.verdict.value.duplicates)
    ensures Books(p, Applied(st, i, h))
  {
    hide NodeBooks;
    var st' := Applied(st, i, h);
    forall j | 0 <= j < p.n
      ensures NodeBooks(p, NodeOf(st', j), false)
    {
      assert NodeBooks(p, NodeOf(st, j), st.verdict.None?);
      ClosedNode(p, NodeOf(st, j), NodeOf(st', j), st.verdict.None?);
    }
  }

  lemma ClosedNode(p: Params, n: Node, n': Node, open: bool)
    requires NodeBooks(p, n, open) && n'.backup == n.backup
    requires n'.view.log == n.view.log && n'.view.received == n.view.received
    ensures NodeBooks(p, n', false)
  {
    hide IsEntry, SentOnly;
  }

  lemma FinishHop(p: Params, st: Stage, i: nat, m: Message)
    requires ValidParams(p) && Invariant(p, st) && i < p.n && st.token == Some(m) && m.EofFinish?
    ensures var h := HandleFinish(ConfigOf(p, i), st.views[i], m); h.ack ==> Invariant(p, Applied(st, i, h))
  {
    var h := HandleFinish(ConfigOf(p, i), st.views[i], m);
    if h.ack {
      var token := if h.out == [] then None else Some(h.out[0]);
      FinishGoesOn(p, st, i, m, token);
      assert st.views[i := st.views[i]] == st.views;
      assert Applied(st, i, h) == st.(token := token);
      hide Books, Custody, Fed, Settled, TokenOk;
      Retoken(p, st, token);
    }
  }

  lemma FinishGoesOn(p: Params, st: Stage, i: nat, m: Message, token: Option<Message>)
    requires i < p.n == |st.views| && TokenOk(p, st) && st.token == Some(m) && m.EofFinish? && i + 1 !in m.replicaIdSeen
    requires token
          == if |m.replicaIdSeen| + 1 < p.n then Some(EofFinish(m.clientId, m.replicaIdSeen + [i + 1])) else None
    ensures TokenOk(p, st.(token := token))
  {
    SeenGrows(p.n, m.replicaIdSeen, i + 1);
  }

  lemma EofHop(p: Params, st: Stage, i: nat)
    requires ValidParams(p) && Enabled(p, st, TokenHop(i)) && Invariant(p, st) && st.token.value.Eof?
    ensures Invariant(p, Next(p, st, TokenHop(i)))
  {
    TokenFacts(p, st);
    NobodySeenOk(p.n);
    hide Books, Custody, Fed, Settled, HandleDiscovery;
    NothingFlat<ProcessedMessage>(p.n);
    DiscoveryHop(p, st, i, ToDiscovery(st.token.value), seq(p.n, _ => []));
  }

  lemma TokenFacts(p: Params, st: Stage)
    requires ValidParams(p) && Invariant(p, st) && st.token.Some? && !st.token.value.EofFinish?
    ensures |st.views| == p.n && Open(p, st)
  {
    hide NodeBooks, Custody, Settled, SnapOk, FoundOk;
  }

  lemma DiscoveryTokenHop(p: Params, st: Stage, i: nat)
    requires ValidParams(p) && Enabled(p, st, TokenHop(i)) && Invariant(p, st) && st.token.value.EofDiscovery?
    ensures Invariant(p, Next(p, st, TokenHop(i)))
  {
    TokenFacts(p, st);
    hide Books, Custody, Fed, Settled, SnapOk, HandleAggregation;
    var m := st.token.value;
    if i + 1 !in m.replicaIdSeen {
      var snap :| SnapOk(p, st, m.replicaIdSeen, m.messagesReceived, m.messagesSent, m.possibleDuplicates, snap);
      DiscoveryHop(p, st, i, m, snap);
    }
  }

  lemma AggregationTokenHop(p: Params, st: Stage, i: nat)
    requires ValidParams(p) && Enabled(p, st, TokenHop(i)) && Invariant(p, st) && st.token.value.EofAggregation?
    ensures Invariant(p, Next(p, st, TokenHop(i)))
  {
    TokenFacts(p, st);
    hide Books, Custody, Fed, Settled, SnapOk, FoundOk, CountDuplicates;
    var m := st.token.value;
    if i + 1 !in m.replicaIdSeen {
      var snap, found :|
        && SnapOk(p, st, Everyone(p.n), m.messagesReceived, m.messagesSent, m.possibleDuplicates, snap)
        && FoundOk(p, m.replicaIdSeen, m.possibleDuplicates + m.originalPossibleDuplicates, m.processedBy, snap, found);
      AggregationHop(p, st, i, m, snap, found);
    }
  }

  lemma HopInvariant(p: Params, st: Stage, i: nat)
    requires ValidParams(p) && Enabled(p, st, TokenHop(i)) && Invariant(p, st)
    ensures Invariant(p, Next(p, st, TokenHop(i)))
  {
    hide Invariant, Next;
    match st.token.value
    case Eof(_, _, _) => EofHop(p, st, i);
    case EofDiscovery(_, _, _, _, _, _, _) => DiscoveryTokenHop(p, st, i);
    case EofAggregation(_, _, _, _, _, _, _, _) => AggregationTokenHop(p, st, i);
    case EofFinish(_, _) => FinishTokenHop(p, st, i);
  }

  lemma FinishTokenHop(p: Params, st: Stage, i: nat)
    requires ValidParams(p) && Enabled(p, st, TokenHop(i)) && Invariant(p, st) && st.token.value.EofFinish?
    ensures Invariant(p, Next(p, st, TokenHop(i)))
  {
    hide Invariant;
    InvariantSize(p, st);
    FinishHop(p, st, i, st.token.value);
  }

  lemma InvariantSize(p: Params, st: Stage)
    requires Invariant(p, st)
    ensures |st.views| == |st.backups| == p.n
  {
    hide Custody, TokenOk, Fed, Settled, NodeBooks;
  }

  // ---------- the main results ----------

  lemma InitInvariant(p: Params)
    requires ValidParams(p)
    ensures Invariant(p, Init(p))
  {
    var st := Init(p);
    NothingFlat<ProcessedMessage>(p.n);
    assert Logs(st.views) == seq<seq<ProcessedMessage>>(p.n, _ => []);
    assert forall x :: Logged(p, st, x) == 0;
  }

  lemma NextInvariant(p: Params, st: Stage, ev: Event)
    requires ValidParams(p) && Invariant(p, st) && Enabled(p, st, ev) && Honest(p, st, ev)
    ensures Invariant(p, Next(p, st, ev))
  {
    match ev
    case Arrive(id) => ArriveInvariant(p, st, id);
    case Deliver(i, d, outcome) => DeliverInvariant(p, st, i, d, outcome);
    case Redeliver(d) => RedeliverInvariant(p, st, d);
    case Restart(i) =>
      AsideShuffles(NodeOf(st, i), Done);
      NodeEventInvariant(p, st, i, Restarted(NodeOf(st, i)));
    case OtherClient(i, outcome) =>
      AsideShuffles(NodeOf(st, i), outcome);
      NodeEventInvariant(p, st, i, NodeAside(NodeOf(st, i), outcome));
    case EofArrives(a) => EofInvariant(p, st, a);
    case TokenHop(i) => HopInvariant(p, st, i);
  }

  lemma {:induction false} RunInvariant(p: Params, st: Stage, evs: seq<Event>)
    requires ValidParams(p) && Invariant(p, st) && HonestRun(p, st, evs)
    ensures Invariant(p, Run(p, st, evs))
    decreases |evs|
  {
    if evs != [] {
      NextInvariant(p, st, evs[0]);
      RunInvariant(p, Next(p, st, evs[0]), evs[1..]);
    }
  }

  ghost predicate SavedSomewhere(p: Params, st: Stage, x: nat) {
    exists i :: 0 <= i < |st.views| && Entry(p, x) in st.views[i].log
  }

  lemma LoggedSomewhere(p: Params, st: Stage, x: nat)
    requires Logged(p, st, x) >= 1
    ensures SavedSomewhere(p, st, x)
  {
    assert Entry(p, x) in Flatten(Logs(st.views));
    FlattenHas(Logs(st.views), Entry(p, x));
    var i :| 0 <= i < |Logs(st.views)| && Entry(p, x) in Logs(st.views)[i];
    assert Entry(p, x) in st.views[i].log;
  }

  /** What a verdict guarantees to the rest of the pipeline, now and in every later state. */
  ghost predicate Guarantee(p: Params, st: Stage) {
    st.verdict.Some? ==>
      && (forall x :: x in p.ids ==> SavedSomewhere(p, st, x))
      && st.verdict.value.sent == |p.emits|
      && (forall x :: x in st.emitted ==> x in p.emits)
      && (forall x :: x in p.ids && x !in st.verdict.value.duplicates ==>
            st.emitted[x] <= 1 && Delivery(x, false) !in st.queue && Delivery(x, true) !in st.queue)
  }

  lemma InvariantGuarantees(p: Params, st: Stage)
    requires Invariant(p, st)
    ensures Guarantee(p, st)
  {
    if st.verdict.Some? {
      forall x | x in p.ids
        ensures SavedSomewhere(p, st, x)
      {
        LoggedSomewhere(p, st, x);
      }
      forall x | x in p.ids && x !in st.verdict.value.duplicates
        ensures Retired(p, st, x)
      {
        assert st.arrived[x] >= 2 ==> x in st.arrived;
      }
    }
  }

  /** EOF safety with an exact forwarded count: for every interleaving of arrivals,
      processing, crashes, redeliveries and token hops, once a round has succeeded every
      message of the client has been saved by some replica, the announced number is the
      number of distinct outputs, and every id not announced as a suspect has been
      published at most once and has no copy left that could publish it again. */
  lemma EofSafety(p: Params, evs: seq<Event>)
    requires ValidParams(p) && HonestRun(p, Init(p), evs)
    ensures Guarantee(p, Run(p, Init(p), evs))
  {
    InitInvariant(p);
    RunInvariant(p, Init(p), evs);
    InvariantGuarantees(p, Run(p, Init(p), evs));
  }

  // ---------- reachable states ----------

  ghost predicate Reachable(p: Params, st: Stage) {
    exists evs :: HonestRun(p, Init(p), evs) && Run(p, Init(p), evs) == st
  }

  lemma {:induction false} RunAppend(p: Params, st: Stage, evs: seq<Event>, ev: Event)
    requires HonestRun(p, st, evs)
    requires Enabled(p, Run(p, st, evs), ev) && Honest(p, Run(p, st, evs), ev)
    ensures HonestRun(p, st, evs + [ev])
    ensures Run(p, st, evs + [ev]) == Next(p, Run(p, st, evs), ev)
    decreases |evs|
  {
    if evs == [] {
      assert evs + [ev] == [ev];
      assert HonestRun(p, Next(p, st, ev), []);
    } else {
      assert (evs + [ev])[1..] == evs[1..] + [ev];
      RunAppend(p, Next(p, st, evs[0]), evs[1..], ev);
    }
  }

  lemma ReachableInit(p: Params)
    ensures Reachable(p, Init(p))
  {
    assert HonestRun(p, Init(p), []) && Run(p, Init(p), []) == Init(p);
  }

  lemma ReachableNext(p: Params, st: Stage, ev: Event)
    requires Reachable(p, st) && Enabled(p, st, ev) && Honest(p, st, ev)
    ensures Reachable(p, Next(p, st, ev))
  {
    hide Init, Enabled, Honest, Next;
    var evs :| HonestRun(p, Init(p), evs) && Run(p, Init(p), evs) == st;
    RunAppend(p, Init(p), evs, ev);
  }

  /** The token finishes exactly when there is a verdict, and a verdict needs an EOF. */
  lemma ReachableFacts(p: Params, st: Stage)
    requires ValidParams(p) && Reachable(p, st)
    ensures Guarantee(p, st)
    ensures st.token.Some? ==> (st.token.value.EofFinish? <==> st.verdict.Some?)
    ensures st.verdict.Some? ==> st.feed.Some?
  {
    var evs :| HonestRun(p, Init(p), evs) && Run(p, Init(p), evs) == st;
    EofSafety(p, evs);
    InitInvariant(p);
    RunInvariant(p, Init(p), evs);
  }

  // ---------- suspects over a run ----------

  /** A suspect of the counters in use, of the last COMMIT, and of what a restart gives back. */
  predicate Firm(n: Node, x: nat) {
    x in n.view.duplicates && x in n.backup.committed.duplicates && x in n.backup.restart.duplicates
  }

  ghost predicate FirmAt(st: Stage, i: nat, x: nat) {
    i < |st.views| == |st.backups| && Firm(NodeOf(st, i), x)
  }

  ghost predicate SuspectAt(st: Stage, i: nat, x: nat) {
    i < |st.views| && x in st.views[i].duplicates
  }

  lemma HopKeepsSuspects(cfg: Config, v: View, m: Message)
    requires IsToken(m)
    ensures Handle(cfg, v, m).view.duplicates == v.duplicates
  {
  }

  lemma DeliveryKeepsFirm(p: Params, n: Node, d: Delivery, outcome: Outcome, x: nat)
    requires Firm(n, x)
    ensures Firm(NodeAfter(n, d.id, d.redelivered, Sends(p, d.id), outcome), x)
  {
    DeliveryLog(p, n, d, outcome);
    hide NodeAfter;
  }

  lemma NodeKeepsFirm(n: Node, outcome: Outcome, x: nat)
    requires Firm(n, x)
    ensures Firm(Restarted(n), x) && Firm(NodeAside(n, outcome), x)
  {
  }

  /** The events that change one replica. */
  lemma OneKeepsFirm(st: Stage, j: nat, n: Node, i: nat, x: nat)
    requires FirmAt(st, i, x) && j < |st.views| && (i == j ==> Firm(n, x))
    ensures FirmAt(WithNode(st, j, n), i, x)
  {
  }

  lemma NextKeepsFirm(p: Params, st: Stage, ev: Event, i: nat, x: nat)
    requires FirmAt(st, i, x) && Enabled(p, st, ev)
    ensures FirmAt(Next(p, st, ev), i, x)
  {
    hide NodeAfter, NodeAside, Restarted, Firm, Handle, PutBack, Output;
    match ev
    case Deliver(j, d, outcome) =>
      var n := NodeAfter(NodeOf(st, j), d.id, d.redelivered, Sends(p, d.id), outcome);
      if i == j {
        DeliveryKeepsFirm(p, NodeOf(st, j), d, outcome, x);
      }
      OneKeepsFirm(st, j, n, i, x);
    case Restart(j) =>
      if i == j {
        NodeKeepsFirm(NodeOf(st, j), Done, x);
      }
      OneKeepsFirm(st, j, Restarted(NodeOf(st, j)), i, x);
    case OtherClient(j, outcome) =>
      if i == j {
        NodeKeepsFirm(NodeOf(st, j), outcome, x);
      }
      OneKeepsFirm(st, j, NodeAside(NodeOf(st, j), outcome), i, x);
    case TokenHop(j) => HopKeepsFirm(p, st, j, i, x);
    case _ =>
  }

  lemma HopKeepsFirm(p: Params, st: Stage, j: nat, i: nat, x: nat)
    requires FirmAt(st, i, x) && Enabled(p, st, TokenHop(j))
    ensures FirmAt(Next(p, st, TokenHop(j)), i, x)
  {
    HopKeepsSuspects(ConfigOf(p, j), st.views[j], st.token.value);
    hide Handle;
  }

  lemma {:induction false} FirmStays(p: Params, st: Stage, evs: seq<Event>, i: nat, x: nat)
    requires FirmAt(st, i, x) && HonestRun(p, st, evs)
    ensures FirmAt(Run(p, st, evs), i, x)
    decreases |evs|
  {
    if evs != [] {
      NextKeepsFirm(p, st, evs[0], i, x);
      hide Next, FirmAt, Enabled, Honest;
      FirmStays(p, Next(p, st, evs[0]), evs[1..], i, x);
    }
  }

  /** A suspicion survives every run if and only if the last COMMIT and the state that a
      restart gives back hold it as well; a COMMIT of any message makes it so. */
  lemma SuspicionStaysExactly(p: Params, st: Stage, i: nat, x: nat)
    requires i < |st.views| == |st.backups|
    ensures (forall evs :: HonestRun(p, st, evs) ==> SuspectAt(Run(p, st, evs), i, x)) <==> FirmAt(st, i, x)
    ensures SuspectAt(st, i, x) ==> FirmAt(Next(p, st, OtherClient(i, Done)), i, x)
  {
    if FirmAt(st, i, x) {
      forall evs | HonestRun(p, st, evs)
        ensures SuspectAt(Run(p, st, evs), i, x)
      {
        FirmStays(p, st, evs, i, x);
        hide Next, Enabled, Honest, HonestRun, Run;
      }
    } else {
      var crash := OtherClient(i, CrashBeforeSave(false));
      SingleRun(p, st, crash);
      SingleRun(p, st, Restart(i));
      assert HonestRun(p, st, []) && Run(p, st, []) == st;
      var evs := if x !in st.views[i].duplicates then []
                 else if x !in st.backups[i].committed.duplicates then [crash] else [Restart(i)];
      assert HonestRun(p, st, evs) && !SuspectAt(Run(p, st, evs), i, x);
    }
  }

  lemma SingleRun(p: Params, st: Stage, ev: Event)
    requires Enabled(p, st, ev) && Honest(p, st, ev)
    ensures HonestRun(p, st, [ev]) && Run(p, st, [ev]) == Next(p, st, ev)
  {
    assert HonestRun(p, Next(p, st, ev), []);
  }
}
