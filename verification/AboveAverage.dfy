/**
 The fares above the overall mean, per route: balancer, k groupers, global mean and
 max/avg (load_balancer.py, grouper.py, media_general.py, max_avg.py) against the
 query over all the flights at once. Fares are real numbers, the hash is any function.
 */
module AboveAverage {
  import opened Sequences
  import opened Permutations
  import opened Routes

  datatype Flight = Flight(start: string, destination: string, fare: real)

  /** What a grouper tells the global mean. */
  datatype Partial = Partial(total: real, amount: int)

  /** What a grouper sends on: a route with its fares above the mean. */
  datatype Row = Row(route: string, prices: seq<real>)

  datatype Answer = Answer(route: string, avg: real, max: real)

  /** No response yet, the mean, or the ZeroDivisionError of a client without flights. */
  datatype MeanReply = Waiting | MeanIs(mean: real) | DivisionByZero

  function Route(f: Flight): string {
    Named(f.start, f.destination)
  }

  function OnRoute(route: string): Flight -> bool {
    (f: Flight) => Route(f) == route
  }

  function ToQueue(hash: string -> nat, k: nat, queue: nat): Flight -> bool
    requires k > 0
  {
    (f: Flight) => QueueOf(hash, k, f) == queue
  }

  function Over(mean: real): real -> bool {
    (p: real) => p > mean
  }

  function Fare(): Flight -> real {
    (f: Flight) => f.fare
  }

  function Fares(flights: seq<Flight>): seq<real> {
    Map(flights, Fare())
  }

  function Prices(flights: seq<Flight>, route: string): seq<real> {
    Fares(Filter(flights, OnRoute(route)))
  }

  // ---------- the query over all flights ----------

  function Mean(all: seq<Flight>): real
    requires all != []
  {
    Sum(Fares(all)) / |all| as real
  }

  function AboveMean(flights: seq<Flight>, route: string, mean: real): seq<real> {
    Filter(Prices(flights, route), Over(mean))
  }

  /** How many flights of the route cost `p`. */
  function CountAt(flights: seq<Flight>, route: string, p: real): nat {
    if flights == [] then 0
    else
      var f := flights[|flights| - 1];
      CountAt(flights[..|flights| - 1], route, p)
      + (if f.start + "-" + f.destination == route && f.fare == p then 1 else 0)
  }

  function Costing(start: string, destination: string, p: real): Flight -> bool {
    (f: Flight) => f.start == start && f.destination == destination && f.fare == p
  }

  /** With airport codes, which have no dash, a route is a pair of airports. */
  lemma {:induction false} CountIsOfPair(flights: seq<Flight>, start: string, destination: string, p: real)
    requires '-' !in start && forall i :: 0 <= i < |flights| ==> '-' !in flights[i].start
    ensures CountAt(flights, start + "-" + destination, p) == |Filter(flights, Costing(start, destination, p))|
  {
    if flights != [] {
      var f := flights[|flights| - 1];
      CountIsOfPair(flights[..|flights| - 1], start, destination, p);
      SameRoute(f.start, f.destination, start, destination);
    }
  }

  /** `fares` are the fares above the mean of the route's flights, each as often as it was
      seen, in any order. */
  ghost predicate AreAbove(fares: seq<real>, flights: seq<Flight>, route: string, mean: real) {
    forall p: real :: multiset(fares)[p] == if p > mean then CountAt(flights, route, p) else 0
  }

  /** Average and maximum of some fares. */
  ghost predicate Sums(fares: seq<real>, a: Answer) {
    && fares != []
    && a.avg == Sum(fares) / |fares| as real
    && a.max in fares
    && forall p :: p in fares ==> p <= a.max
  }

  /** The right answer for a route that has a fare above the mean of all flights. */
  ghost predicate Correct(all: seq<Flight>, a: Answer)
    requires all != []
  {
    exists fares ::
      AreAbove(fares, all, a.route, Sum(Map(all, (f: Flight) => f.fare)) / |all| as real) && Sums(fares, a)
  }

  /** Filtering by route and mean keeps exactly those fares. */
  lemma {:induction false} PricesCount(flights: seq<Flight>, route: string, p: real)
    ensures multiset(Prices(flights, route))[p] == CountAt(flights, route, p)
  {
    if flights != [] {
      var front, f := flights[..|flights| - 1], flights[|flights| - 1];
      PricesCount(front, route, p);
      assert flights == front + [f];
      PricesLast(front, f);
      hide Prices;
    }
  }

  lemma AboveIsAbove(flights: seq<Flight>, route: string, mean: real)
    ensures AreAbove(AboveMean(flights, route, mean), flights, route, mean)
  {
    forall p: real
      ensures multiset(AboveMean(flights, route, mean))[p] == if p > mean then CountAt(flights, route, p) else 0
    {
      FilterCount(Prices(flights, route), Over(mean), p);
      PricesCount(flights, route, p);
    }
  }

  /** Nothing else is right. */
  lemma AboveUnique(fares: seq<real>, flights: seq<Flight>, route: string, mean: real)
    requires AreAbove(fares, flights, route, mean)
    ensures multiset(fares) == multiset(AboveMean(flights, route, mean))
  {
    AboveIsAbove(flights, route, mean);
    forall p: real
      ensures multiset(fares)[p] == multiset(AboveMean(flights, route, mean))[p]
    {
    }
  }

  // ---------- load_balancer.py and Connection.send_messages_topic ----------

  function QueueOf(hash: string -> nat, k: nat, f: Flight): nat
    requires k > 0
  {
    hash(Route(f)) % k + 1
  }

  /** Collects the processed messages by topic; every topic is sent one message. */
  method BalanceBatch(hash: string -> nat, k: nat, batch: seq<Flight>) returns (byTopic: map<nat, seq<Flight>>)
    requires k > 0
    ensures forall t: nat :: t in byTopic <==> Filter(batch, ToQueue(hash, k, t)) != []
    ensures forall t: nat :: t in byTopic ==> 1 <= t <= k && byTopic[t] == Filter(batch, ToQueue(hash, k, t))
  {
    hide Route, Filter;
    byTopic := map[];
    NoneForQueue(hash, k, batch);
    for i := 0 to |batch|
      invariant forall t: nat :: t in byTopic <==> Filter(batch[..i], ToQueue(hash, k, t)) != []
      invariant forall t: nat :: t in byTopic ==> 1 <= t <= k && byTopic[t] == Filter(batch[..i], ToQueue(hash, k, t))
    {
      var topic := QueueOf(hash, k, batch[i]);
      byTopic := byTopic[topic := (if topic in byTopic then byTopic[topic] else []) + [batch[i]]];
      NextForQueue(hash, k, batch, i);
    }
    assert batch[..|batch|] == batch;
  }

  lemma NoneForQueue(hash: string -> nat, k: nat, batch: seq<Flight>)
    requires k > 0
    ensures forall t: nat :: Filter(batch[..0], ToQueue(hash, k, t)) == []
  {
  }

  lemma NextForQueue(hash: string -> nat, k: nat, batch: seq<Flight>, i: nat)
    requires k > 0 && i < |batch|
    ensures forall t: nat ::
      Filter(batch[..i + 1], ToQueue(hash, k, t))
      == Filter(batch[..i], ToQueue(hash, k, t)) + (if t == QueueOf(hash, k, batch[i]) then [batch[i]] else [])
  {
    assert batch[..i + 1] == batch[..i] + [batch[i]];
    forall t: nat
      ensures Filter(batch[..i + 1], ToQueue(hash, k, t))
           == Filter(batch[..i], ToQueue(hash, k, t)) + (if t == QueueOf(hash, k, batch[i]) then [batch[i]] else [])
    {
      FilterLast(batch[..i], batch[i], ToQueue(hash, k, t));
    }
  }

  /** The messages that a topic is sent for a sequence of batches. */
  function SentTo(hash: string -> nat, k: nat, batches: seq<seq<Flight>>, topic: nat): seq<seq<Flight>>
    requires k > 0
  {
    if batches == [] then []
    else
      var rows := Filter(batches[0], ToQueue(hash, k, topic));
      (if rows == [] then [] else [rows]) + SentTo(hash, k, batches[1..], topic)
  }

  lemma {:induction false} SentIsFiltered(hash: string -> nat, k: nat, batches: seq<seq<Flight>>, topic: nat)
    requires k > 0
    ensures Flatten(SentTo(hash, k, batches, topic)) == Filter(Flatten(batches), ToQueue(hash, k, topic))
  {
    if batches != [] {
      SentIsFiltered(hash, k, batches[1..], topic);
      var rows := Filter(batches[0], ToQueue(hash, k, topic));
      var later := SentTo(hash, k, batches[1..], topic);
      assert ([rows] + later)[1..] == later && [] + later == later;
      FilterAppend(batches[0], Flatten(batches[1..]), ToQueue(hash, k, topic));
    }
  }

  /** Whatever the batches and the order of delivery, a grouper gets the flights of its queue. */
  lemma {:induction false} DeliveredAnyhow(hash: string -> nat, k: nat, batches: seq<seq<Flight>>, topic: nat,
                                           delivered: seq<seq<Flight>>)
    requires k > 0 && multiset(delivered) == multiset(SentTo(hash, k, batches, topic))
    ensures multiset(Flatten(delivered)) == multiset(Filter(Flatten(batches), ToQueue(hash, k, topic)))
  {
    FlattenReordered(delivered, SentTo(hash, k, batches, topic));
    SentIsFiltered(hash, k, batches, topic);
  }

  // ---------- grouper.py ----------

  /** The keys of the routes dictionary, in insertion order. */
  ghost predicate IsKeys(keys: seq<string>, seen: seq<Flight>) {
    Distinct(keys) && forall r :: r in keys <==> Prices(seen, r) != []
  }

  function Rows(keys: seq<string>, seen: seq<Flight>, mean: real): seq<Row> {
    if keys == [] then []
    else
      var r := keys[|keys| - 1];
      Rows(keys[..|keys| - 1], seen, mean)
      + (if AboveMean(seen, r, mean) == [] then [] else [Row(r, AboveMean(seen, r, mean))])
  }

  function PartialOf(): seq<Flight> -> Partial {
    (seen: seq<Flight>) => Partial(Sum(Fares(seen)), |seen|)
  }

  /** The flights of each route, in the order of the keys. */
  function ByRoute(seen: seq<Flight>): string -> seq<Flight> {
    (r: string) => Filter(seen, OnRoute(r))
  }

  class Grouper {
    var routes: map<string, seq<real>>
    var keys: seq<string>
    var toSend: seq<Row>
    ghost var seen: seq<Flight>

    ghost predicate Valid()
      reads this
    {
      && IsKeys(keys, seen)
      && (forall r :: r in routes <==> r in keys)
      && (forall r :: r in routes ==> routes[r] == Prices(seen, r))
    }

    constructor ()
      ensures Valid() && seen == [] && toSend == []
    {
      routes, keys, toSend, seen := map[], [], [], [];
    }

    method GroupPricesByRoute(f: Flight)
      requires Valid()
      modifies this
      ensures Valid() && seen == old(seen) + [f] && toSend == old(toSend)
    {
      hide Prices;
      var route := Route(f);
      PricesLast(seen, f);
      if route in routes {
        routes := routes[route := routes[route] + [f.fare]];
      } else {
        keys := keys + [route];
        routes := routes[route := [f.fare]];
      }
      seen := seen + [f];
    }

    /** The sum over all routes that goes to the global mean. */
    method SumRoutes() returns (message: Partial)
      requires Valid()
      ensures message == Partial(Sum(Fares(seen)), |seen|)
    {
      hide Flatten, Sum, IsKeys;
      var totalFare, amount := 0.0, 0;
      NoParts();
      ghost var parts := Map(keys, ByRoute(seen));
      for i := 0 to |keys|
        invariant totalFare == Sum(Fares(Flatten(parts[..i])))
        invariant amount == |Flatten(parts[..i])|
      {
        var prices := routes[keys[i]];
        totalFare := totalFare + Sum(prices);
        amount := amount + |prices|;
        OneMorePart(parts, i);
      }
      assert parts[..|keys|] == parts;
      SumByRoute(keys, seen);
      message := Partial(totalFare, amount);
    }

    /** The global mean is here: every route with a fare above it is sent on. */
    method ProcessSingle(mediaGeneral: real)
      requires Valid()
      modifies this`toSend
      ensures Valid() && toSend == old(toSend) + Rows(keys, seen, mediaGeneral)
      ensures |toSend| >= |old(toSend)| && RowsAbove(toSend[|old(toSend)|..], seen, mediaGeneral)
    {
      hide RowsAbove, CountAt, Route;
      var result: seq<Row> := [];
      for i := 0 to |keys|
        invariant Valid() && result == Rows(keys[..i], seen, mediaGeneral)
      {
        assert keys[..i + 1][..i] == keys[..i];
        var pricesFiltered := Filter(routes[keys[i]], Over(mediaGeneral));
        if pricesFiltered != [] {
          result := result + [Row(keys[i], pricesFiltered)];
        }
      }
      assert keys[..|keys|] == keys;
      RowsAreAbove(keys, seen, mediaGeneral);
      assert (toSend + result)[|toSend|..] == result;
      toSend := toSend + result;
    }
  }

  ghost predicate HasRow(rows: seq<Row>, route: string) {
    exists row :: row in rows && row.route == route
  }

  ghost predicate HasFareAbove(flights: seq<Flight>, route: string, mean: real) {
    exists p :: p > mean && CountAt(flights, route, p) > 0
  }

  /** One row for each route that has a fare above the mean, with exactly those fares. */
  ghost predicate RowsAbove(rows: seq<Row>, flights: seq<Flight>, mean: real) {
    && (forall row :: row in rows ==> row.prices != [] && AreAbove(row.prices, flights, row.route, mean))
    && (forall i, j :: 0 <= i < j < |rows| ==> rows[i].route != rows[j].route)
    && (forall route :: HasRow(rows, route) <==> HasFareAbove(flights, route, mean))
  }

  lemma RowsAreAbove(keys: seq<string>, seen: seq<Flight>, mean: real)
    requires IsKeys(keys, seen)
    ensures RowsAbove(Rows(keys, seen, mean), seen, mean)
  {
    var rows := Rows(keys, seen, mean);
    hide Rows, AreAbove, AboveMean, CountAt, HasRow, HasFareAbove;
    forall row | row in rows
      ensures row.prices != [] && AreAbove(row.prices, seen, row.route, mean)
    {
      RowsAre(keys, seen, mean, row);
      AboveIsAbove(seen, row.route, mean);
    }
    forall i, j | 0 <= i < j < |rows|
      ensures rows[i].route != rows[j].route
    {
      RowsDistinct(keys, seen, mean, i, j);
    }
    forall route
      ensures HasRow(rows, route) <==> HasFareAbove(seen, route, mean)
    {
      RowFor(keys, seen, mean, route);
    }
  }

  lemma RowFor(keys: seq<string>, seen: seq<Flight>, mean: real, route: string)
    requires IsKeys(keys, seen)
    ensures HasRow(Rows(keys, seen, mean), route) <==> HasFareAbove(seen, route, mean)
  {
    FareAbove(seen, route, mean);
    hide AboveMean, CountAt, HasFareAbove, Rows, IsKeys;
    if HasRow(Rows(keys, seen, mean), route) {
      var row :| row in Rows(keys, seen, mean) && row.route == route;
      RowsAre(keys, seen, mean, row);
    }
    if AboveMean(seen, route, mean) != [] {
      HasKey(keys, seen, route, mean);
      RowsAre(keys, seen, mean, Row(route, AboveMean(seen, route, mean)));
    }
  }

  lemma FareAbove(seen: seq<Flight>, route: string, mean: real)
    ensures HasFareAbove(seen, route, mean) <==> AboveMean(seen, route, mean) != []
  {
    var above := AboveMean(seen, route, mean);
    AboveIsAbove(seen, route, mean);
    hide AboveMean, CountAt;
    if above != [] {
      var p := above[0];
      assert multiset(above)[p] > 0;
      assert p > mean && CountAt(seen, route, p) > 0;
    }
    if HasFareAbove(seen, route, mean) {
      var p :| p > mean && CountAt(seen, route, p) > 0;
      assert multiset(above)[p] > 0;
      assert p in above;
    }
  }

  lemma PricesLast(seen: seq<Flight>, f: Flight)
    ensures forall r :: Prices(seen + [f], r) == Prices(seen, r) + (if r == Route(f) then [f.fare] else [])
  {
    forall r
      ensures Prices(seen + [f], r) == Prices(seen, r) + (if r == Route(f) then [f.fare] else [])
    {
      FilterLast(seen, f, OnRoute(r));
    }
  }

  lemma FaresAppend(a: seq<Flight>, b: seq<Flight>)
    ensures Sum(Fares(a + b)) == Sum(Fares(a)) + Sum(Fares(b)) && |Fares(b)| == |b|
  {
    assert Fares(a + b) == Fares(a) + Fares(b);
    SumAppend(Fares(a), Fares(b));
  }

  lemma NoParts()
    ensures Sum(Fares(Flatten([]))) == 0.0 && |Flatten<Flight>([])| == 0
  {
  }

  lemma OneMorePart(parts: seq<seq<Flight>>, i: nat)
    requires i < |parts|
    ensures Sum(Fares(Flatten(parts[..i + 1]))) == Sum(Fares(Flatten(parts[..i]))) + Sum(Fares(parts[i]))
    ensures |Flatten(parts[..i + 1])| == |Flatten(parts[..i])| + |parts[i]|
  {
    assert parts[..i + 1] == parts[..i] + [parts[i]];
    FlattenAppend(parts[..i], [parts[i]]);
    assert Flatten([parts[i]]) == parts[i];
    FaresAppend(Flatten(parts[..i]), parts[i]);
  }

  /** Summing route by route is summing everything. */
  lemma SumByRoute(keys: seq<string>, seen: seq<Flight>)
    requires IsKeys(keys, seen)
    ensures var all := Flatten(Map(keys, ByRoute(seen)));
      Sum(Fares(all)) == Sum(Fares(seen)) && |all| == |seen|
  {
    var all := Flatten(Map(keys, ByRoute(seen)));
    PartsAreAll(keys, seen);
    hide Flatten, IsKeys;
    MapReordered(all, seen, Fare());
    SumReordered(Fares(all), Fares(seen));
    assert |all| == |multiset(all)| == |seen|;
  }

  /** The position of a route among the keys, or past their end. */
  function Position(keys: seq<string>): Flight -> nat {
    (f: Flight) => Find(keys, Route(f))
  }

  function Find(keys: seq<string>, r: string): (i: nat)
    ensures i <= |keys| && (i < |keys| ==> keys[i] == r) && (r in keys <==> i < |keys|)
  {
    if keys == [] then 0 else if keys[0] == r then 0 else 1 + Find(keys[1..], r)
  }

  /** Every flight is in the list of its route, once. */
  lemma PartsAreAll(keys: seq<string>, seen: seq<Flight>)
    requires IsKeys(keys, seen)
    ensures multiset(Flatten(Map(keys, ByRoute(seen)))) == multiset(seen)
  {
    hide IsKeys, Find, Filter, Flatten;
    var parts := Map(keys, ByRoute(seen));
    forall f, i | 0 <= i < |parts|
      ensures multiset(parts[i])[f] == if Position(keys)(f) == i then multiset(seen)[f] else 0
    {
      PartOf(keys, seen, f, i);
    }
    forall f | f in seen
      ensures Position(keys)(f) < |parts|
    {
      HasPosition(keys, seen, f);
    }
    PartitionFlattens(parts, seen, Position(keys));
  }

  lemma PartOf(keys: seq<string>, seen: seq<Flight>, f: Flight, i: nat)
    requires IsKeys(keys, seen) && i < |keys|
    ensures multiset(ByRoute(seen)(keys[i]))[f] == if Position(keys)(f) == i then multiset(seen)[f] else 0
  {
    FilterCount(seen, OnRoute(keys[i]), f);
    FindIs(keys, Route(f), i);
  }

  lemma FindIs(keys: seq<string>, r: string, i: nat)
    requires Distinct(keys) && i < |keys|
    ensures Find(keys, r) == i <==> keys[i] == r
  {
    hide Find;
    assert Find(keys, r) < |keys| ==> keys[Find(keys, r)] == r;
  }

  lemma {:induction false} HasPosition(keys: seq<string>, seen: seq<Flight>, f: Flight)
    requires IsKeys(keys, seen) && f in seen
    ensures Find(keys, Route(f)) < |keys|
  {
    FilterHas(seen, OnRoute(Route(f)), f);
    assert Prices(seen, Route(f)) != [];
  }

  // ---------- media_general.py ----------

  function Totals(): Partial -> real {
    (p: Partial) => p.total
  }

  function Amount(ps: seq<Partial>): int {
    if ps == [] then 0 else Amount(ps[..|ps| - 1]) + ps[|ps| - 1].amount
  }

  /** The reply to the last of the partial sums that have arrived. */
  function MeanOf(arrived: seq<Partial>, groupers: nat): MeanReply {
    if |arrived| != groupers then Waiting
    else if Amount(arrived) == 0 then DivisionByZero
    else MeanIs(Sum(Map(arrived, Totals())) / Amount(arrived) as real)
  }

  class MediaGeneral {
    const grouperReplicasCount: nat
    var amountReceived: nat
    var priceSum: real
    var amount: int
    ghost var arrived: seq<Partial>

    ghost predicate Valid()
      reads this
    {
      amountReceived == |arrived| && priceSum == Sum(Map(arrived, Totals())) && amount == Amount(arrived)
    }

    constructor (groupers: nat)
      ensures Valid() && arrived == [] && grouperReplicasCount == groupers
    {
      grouperReplicasCount := groupers;
      amountReceived, priceSum, amount, arrived := 0, 0.0, 0, [];
    }

    method Process(message: Partial) returns (r: MeanReply)
      requires Valid()
      modifies this
      ensures Valid() && arrived == old(arrived) + [message]
      ensures r == MeanOf(arrived, grouperReplicasCount)
    {
      priceSum := priceSum + message.total;
      amount := amount + message.amount;
      amountReceived := amountReceived + 1;
      assert Map(arrived + [message], Totals()) == Map(arrived, Totals()) + [message.total];
      SumLast(Map(arrived, Totals()), message.total);
      assert (arrived + [message])[..|arrived|] == arrived;
      arrived := arrived + [message];
      if amountReceived != grouperReplicasCount {
        return Waiting;
      }
      if amount == 0 {
        return DivisionByZero;
      }
      return MeanIs(priceSum / amount as real);
    }
  }

  // ---------- max_avg.py ----------

  function GetMax(prices: seq<real>): (m: real)
    requires prices != []
    ensures m in prices && forall p :: p in prices ==> p <= m
  {
    if |prices| == 1 then prices[0]
    else
      var m := GetMax(prices[1..]);
      assert prices == [prices[0]] + prices[1..];
      if prices[0] >= m then prices[0] else m
  }

  function MaxAvg(row: Row): Answer
    requires row.prices != []
  {
    Answer(row.route, Sum(row.prices) / |row.prices| as real, GetMax(row.prices))
  }

  // ---------- the distributed query ----------

  /** Grouper t + 1 has seen the flights of its queue, each once, in any order. */
  ghost predicate Delivered(hash: string -> nat, k: nat, all: seq<Flight>, seens: seq<seq<Flight>>)
    requires k > 0
  {
    |seens| == k && forall t :: 0 <= t < k ==> multiset(seens[t]) == multiset(Filter(all, ToQueue(hash, k, t + 1)))
  }

  /** What the groupers have seen when their batches have been delivered. */
  function Seen(delivered: seq<seq<seq<Flight>>>): (seens: seq<seq<Flight>>)
    ensures |seens| == |delivered|
  {
    seq(|delivered|, t requires 0 <= t < |delivered| => Flatten(delivered[t]))
  }

  /** Any batching by the balancers and any order of delivery ends in that state. */
  lemma AnyDelivery(hash: string -> nat, k: nat, batches: seq<seq<Flight>>, delivered: seq<seq<seq<Flight>>>)
    requires k > 0 && |delivered| == k
    requires forall t :: 0 <= t < k ==> multiset(delivered[t]) == multiset(SentTo(hash, k, batches, t + 1))
    ensures Delivered(hash, k, Flatten(batches), Seen(delivered))
  {
    hide Flatten, Filter, SentTo;
    forall t | 0 <= t < k
      ensures multiset(Flatten(delivered[t])) == multiset(Filter(Flatten(batches), ToQueue(hash, k, t + 1)))
    {
      DeliveredAnyhow(hash, k, batches, t + 1, delivered[t]);
    }
  }

  function Home(hash: string -> nat, k: nat): Flight -> nat
    requires k > 0
  {
    (f: Flight) => hash(Route(f)) % k
  }

  lemma TogetherAll(hash: string -> nat, k: nat, all: seq<Flight>, seens: seq<seq<Flight>>)
    requires k > 0 && Delivered(hash, k, all, seens)
    ensures multiset(Flatten(seens)) == multiset(all)
  {
    hide Filter, Flatten, Route;
    forall f, t | 0 <= t < k
      ensures multiset(seens[t])[f] == if Home(hash, k)(f) == t then multiset(all)[f] else 0
    {
      FilterCount(all, ToQueue(hash, k, t + 1), f);
    }
    PartitionFlattens(seens, all, Home(hash, k));
  }

  lemma {:induction false} PartialsAddUp(seens: seq<seq<Flight>>)
    ensures Sum(Map(Map(seens, PartialOf()), Totals())) == Sum(Fares(Flatten(seens)))
    ensures Amount(Map(seens, PartialOf())) == |Flatten(seens)|
  {
    if seens != [] {
      var front, last := seens[..|seens| - 1], seens[|seens| - 1];
      PartialsAddUp(front);
      FrontAndLast(seens);
      FlattenAppend(front, [last]);
      FaresAppend(Flatten(front), last);
      var ps := Map(seens, PartialOf());
      assert ps[..|ps| - 1] == Map(front, PartialOf());
      assert Flatten([last]) == last;
      assert Map(ps, Totals()) == Map(Map(front, PartialOf()), Totals()) + [Sum(Fares(last))];
      hide Flatten, Fares;
      SumLast(Map(Map(front, PartialOf()), Totals()), Sum(Fares(last)));
    }
  }

  /** The k-th partial sum to arrive, whatever the order, completes the mean of all flights;
      with no flights at all it fails; before it nothing is sent. */
  lemma MeanIsGlobal(hash: string -> nat, k: nat, all: seq<Flight>, seens: seq<seq<Flight>>, order: seq<seq<Flight>>)
    requires k > 0 && Delivered(hash, k, all, seens) && multiset(order) == multiset(seens)
    ensures MeanOf(Map(order, PartialOf()), k) == if all == [] then DivisionByZero else MeanIs(Mean(all))
    ensures forall n :: 0 <= n < k ==> MeanOf(Map(order, PartialOf())[..n], k) == Waiting
  {
    assert |order| == |multiset(order)| == |multiset(seens)| == |seens|;
    TogetherAll(hash, k, all, seens);
    FlattenReordered(order, seens);
    PartialsAddUp(order);
    MapReordered(Flatten(order), all, Fare());
    SumReordered(Fares(Flatten(order)), Fares(all));
    assert |Flatten(order)| == |multiset(Flatten(order))| == |multiset(all)| == |all|;
  }

  /** A route's fares are all at one grouper. */
  lemma RouteAtHome(hash: string -> nat, k: nat, all: seq<Flight>, seens: seq<seq<Flight>>, t: nat,
                    r: string, mean: real)
    requires k > 0 && Delivered(hash, k, all, seens) && t < k
    ensures multiset(AboveMean(seens[t], r, mean))
         == if t == hash(r) % k then multiset(AboveMean(all, r, mean)) else multiset{}
  {
    var queue := Filter(all, ToQueue(hash, k, t + 1));
    FilterReordered(seens[t], queue, OnRoute(r));
    RouteInQueue(hash, k, all, t, r);
    var here, there := Filter(seens[t], OnRoute(r)), if t == hash(r) % k then Filter(all, OnRoute(r)) else [];
    MapReordered(here, there, Fare());
    FilterReordered(Fares(here), Fares(there), Over(mean));
    assert Fares([]) == [];
  }

  lemma RouteInQueue(hash: string -> nat, k: nat, all: seq<Flight>, t: nat, r: string)
    requires k > 0 && t < k
    ensures multiset(Filter(Filter(all, ToQueue(hash, k, t + 1)), OnRoute(r)))
         == multiset(if t == hash(r) % k then Filter(all, OnRoute(r)) else [])
  {
    var a := Filter(Filter(all, ToQueue(hash, k, t + 1)), OnRoute(r));
    var b := if t == hash(r) % k then Filter(all, OnRoute(r)) else [];
    forall f
      ensures multiset(a)[f] == multiset(b)[f]
    {
      FilterCount(Filter(all, ToQueue(hash, k, t + 1)), OnRoute(r), f);
      FilterCount(all, ToQueue(hash, k, t + 1), f);
      FilterCount(all, OnRoute(r), f);
    }
  }

  lemma {:induction false} RowsAre(keys: seq<string>, seen: seq<Flight>, mean: real, row: Row)
    ensures row in Rows(keys, seen, mean)
       <==> row.route in keys && row.prices == AboveMean(seen, row.route, mean) != []
  {
    if keys != [] {
      RowsAre(keys[..|keys| - 1], seen, mean, row);
      FrontAndLast(keys);
    }
  }

  /** A route with a fare above the mean has a key. */
  lemma HasKey(keys: seq<string>, seen: seq<Flight>, r: string, mean: real)
    requires IsKeys(keys, seen) && AboveMean(seen, r, mean) != []
    ensures r in keys
  {
  }

  /** The answer to a reordering of the right fares is right, and there is no other. */
  lemma SameAnswer(all: seq<Flight>, row: Row, a: Answer)
    requires all != [] && row.prices != [] && row.route == a.route
    requires multiset(row.prices) == multiset(AboveMean(all, row.route, Mean(all)))
    ensures Correct(all, a) <==> a == MaxAvg(row)
  {
    var mean := Mean(all);
    MeanWrittenOut(all);
    AboveIsAbove(all, a.route, mean);
    assert AreAbove(row.prices, all, a.route, mean);
    hide AboveMean, Sum, Mean, AreAbove, Sums, MaxAvg;
    if Correct(all, a) {
      var fares :| AreAbove(fares, all, a.route, mean) && Sums(fares, a);
      AboveUnique(fares, all, a.route, mean);
      SumsUnique(row, fares, a);
    }
    if a == MaxAvg(row) {
      SumsUnique(row, row.prices, a);
    }
  }

  /** Average and maximum do not depend on the order of the fares. */
  lemma SumsUnique(row: Row, fares: seq<real>, a: Answer)
    requires row.prices != [] && row.route == a.route && multiset(row.prices) == multiset(fares)
    ensures Sums(fares, a) <==> a == MaxAvg(row)
  {
    SameFares(row.prices, fares);
    hide Sum, GetMax;
    if Sums(fares, a) {
      SameMax(row.prices, fares, a.max);
    }
  }

  /** A right answer is about a route with a fare above the mean. */
  lemma HasAbove(all: seq<Flight>, a: Answer)
    requires all != [] && Correct(all, a)
    ensures AboveMean(all, a.route, Mean(all)) != []
  {
    var mean := Mean(all);
    MeanWrittenOut(all);
    hide AboveMean, Sum, Mean;
    var fares :| AreAbove(fares, all, a.route, mean) && Sums(fares, a);
    AboveUnique(fares, all, a.route, mean);
    SameFares(fares, AboveMean(all, a.route, mean));
  }

  lemma SameMax(a: seq<real>, b: seq<real>, max: real)
    requires a != [] && (forall p :: p in a <==> p in b) && max in b && forall p :: p in b ==> p <= max
    ensures GetMax(a) == max
  {
    hide GetMax;
  }

  lemma MeanWrittenOut(all: seq<Flight>)
    requires all != []
    ensures Sum(Map(all, (f: Flight) => f.fare)) / |all| as real == Mean(all)
  {
    assert Map(all, (f: Flight) => f.fare) == Fares(all);
  }

  lemma SameFares(a: seq<real>, b: seq<real>)
    requires multiset(a) == multiset(b)
    ensures Sum(a) == Sum(b) && |a| == |b| && forall p :: p in a <==> p in b
  {
    SumReordered(a, b);
    assert |a| == |multiset(a)| == |multiset(b)| == |b|;
    assert forall p :: p in a <==> p in multiset(a);
    assert forall p :: p in b <==> p in multiset(b);
  }

  /** The distributed query is the sequential one: for any flights (at least one), any hash,
      any number of groupers and any batching or delivery order, an answer comes out of
      some grouper's rows exactly when it is right for all the flights. */
  lemma DistributedIsSequential(hash: string -> nat, k: nat, all: seq<Flight>, seens: seq<seq<Flight>>,
                                keys: seq<seq<string>>, a: Answer)
    requires k > 0 && all != [] && Delivered(hash, k, all, seens)
    requires |keys| == k && forall t :: 0 <= t < k ==> IsKeys(keys[t], seens[t])
    ensures Correct(all, a)
       <==> exists t, row :: 0 <= t < k && row in Rows(keys[t], seens[t], Mean(all))
                            && row.prices != [] && a == MaxAvg(row)
  {
    var mean, home := Mean(all), hash(a.route) % k;
    RouteAtHome(hash, k, all, seens, home, a.route, mean);
    if Correct(all, a) {
      HasAbove(all, a);
      var row := Row(a.route, AboveMean(seens[home], a.route, mean));
      assert row.prices != [] by { assert multiset(AboveMean(all, a.route, mean)) != multiset{}; }
      HasKey(keys[home], seens[home], a.route, mean);
      RowsAre(keys[home], seens[home], mean, row);
      SameAnswer(all, row, a);
    }
    if t, row :| 0 <= t < k && row in Rows(keys[t], seens[t], mean) && row.prices != [] && a == MaxAvg(row) {
      RowsAre(keys[t], seens[t], mean, row);
      RouteAtHome(hash, k, all, seens, t, a.route, mean);
      assert t == home;
      SameAnswer(all, row, a);
    }
  }

  /** The whole query, from the balancers' batches to the answers: for any batching, any
      order in which the batches reach each grouper, and any order in which the groupers'
      partial sums reach the global mean, no mean is sent before the last partial sum; that
      one fails when there was no flight; and otherwise the rows that the groupers make with
      the mean in the reply give exactly the answers of the sequential query. */
  lemma QueryIsSequential(hash: string -> nat, k: nat, batches: seq<seq<Flight>>, delivered: seq<seq<seq<Flight>>>,
                          order: seq<seq<Flight>>, keys: seq<seq<string>>, a: Answer)
    requires k > 0 && |delivered| == k == |keys|
    requires forall t :: 0 <= t < k ==> multiset(delivered[t]) == multiset(SentTo(hash, k, batches, t + 1))
    requires multiset(order) == multiset(Seen(delivered))
    requires forall t :: 0 <= t < k ==> IsKeys(keys[t], Seen(delivered)[t])
    ensures var all, seens, partials := Flatten(batches), Seen(delivered), Map(order, PartialOf());
      && |partials| == k && (forall n :: 0 <= n < k ==> MeanOf(partials[..n], k) == Waiting)
      && (if all == [] then MeanOf(partials, k) == DivisionByZero
          else
            && MeanOf(partials, k).MeanIs?
            && (Correct(all, a)
                <==> exists t, row :: 0 <= t < k && row in Rows(keys[t], seens[t], MeanOf(partials, k).mean)
                                      && row.prices != [] && a == MaxAvg(row)))
  {
    var all, seens := Flatten(batches), Seen(delivered);
    hide Flatten, Filter, SentTo, Delivered, IsKeys, Correct, Rows, MeanOf, Mean, Map;
    assert |order| == |multiset(order)| == |multiset(seens)| == k;
    AnyDelivery(hash, k, batches, delivered);
    MeanIsGlobal(hash, k, all, seens, order);
    if all != [] {
      DistributedIsSequential(hash, k, all, seens, keys, a);
    }
  }

  lemma {:induction false} RowsDistinct(keys: seq<string>, seen: seq<Flight>, mean: real, i: nat, j: nat)
    requires Distinct(keys) && i < j < |Rows(keys, seen, mean)|
    ensures Rows(keys, seen, mean)[i].route != Rows(keys, seen, mean)[j].route
  {
    var front := keys[..|keys| - 1];
    var rows := Rows(front, seen, mean);
    if j < |rows| {
      RowsDistinct(front, seen, mean, i, j);
    } else {
      assert rows[i] in rows;
      RowsAre(front, seen, mean, rows[i]);
    }
  }

  /** No route is answered twice: its rows come from one grouper, and only once from it. */
  lemma AnsweredOnce(hash: string -> nat, k: nat, all: seq<Flight>, seens: seq<seq<Flight>>,
                     keys: seq<seq<string>>, mean: real, t: nat, u: nat, i: nat, j: nat)
    requires k > 0 && Delivered(hash, k, all, seens) && t < k && u < k
    requires |keys| == k && IsKeys(keys[t], seens[t]) && IsKeys(keys[u], seens[u])
    requires i < |Rows(keys[t], seens[t], mean)| && j < |Rows(keys[u], seens[u], mean)|
    requires Rows(keys[t], seens[t], mean)[i].route == Rows(keys[u], seens[u], mean)[j].route
    ensures t == u && i == j
  {
    var a, b := Rows(keys[t], seens[t], mean)[i], Rows(keys[u], seens[u], mean)[j];
    RowsAre(keys[t], seens[t], mean, a);
    RowsAre(keys[u], seens[u], mean, b);
    RouteAtHome(hash, k, all, seens, t, a.route, mean);
    RouteAtHome(hash, k, all, seens, u, a.route, mean);
    assert t == u;
    if i < j {
      RowsDistinct(keys[t], seens[t], mean, i, j);
    } else if j < i {
      RowsDistinct(keys[t], seens[t], mean, j, i);
    }
  }

  // ---------- replay ----------

  /** A grouper restored from its log newest batch first, and a global mean restored the
      same way, say the same as before the crash: the partial sum is equal, every route has
      the same fares above any mean up to their order, and the mean is equal. */
  lemma GrouperReplay(batches: seq<seq<Flight>>, r: string, mean: real)
    ensures var before, after := Flatten(batches), Flatten(Reverse(batches));
      && PartialOf()(after) == PartialOf()(before)
      && multiset(AboveMean(after, r, mean)) == multiset(AboveMean(before, r, mean))
  {
    var before, after := Flatten(batches), Flatten(Reverse(batches));
    ReplayReordered(batches);
    MapReordered(after, before, Fare());
    SumReordered(Fares(after), Fares(before));
    assert |after| == |multiset(after)| == |multiset(before)| == |before|;
    FilterReordered(after, before, OnRoute(r));
    MapReordered(Filter(after, OnRoute(r)), Filter(before, OnRoute(r)), Fare());
    FilterReordered(Prices(after, r), Prices(before, r), Over(mean));
  }

  lemma MeanReplay(batches: seq<seq<Partial>>, groupers: nat)
    ensures MeanOf(Flatten(Reverse(batches)), groupers) == MeanOf(Flatten(batches), groupers)
  {
    var before, after := Flatten(batches), Flatten(Reverse(batches));
    ReplayReordered(batches);
    assert |after| == |multiset(after)| == |multiset(before)| == |before|;
    MapReordered(after, before, Totals());
    SumReordered(Map(after, Totals()), Map(before, Totals()));
    AmountReordered(after, before);
  }

  lemma {:induction false} AmountAppend(a: seq<Partial>, b: seq<Partial>)
    ensures Amount(a + b) == Amount(a) + Amount(b)
  {
    if b == [] {
      assert a + b == a;
    } else {
      AmountAppend(a, b[..|b| - 1]);
      assert (a + b)[..|a + b| - 1] == a + b[..|b| - 1];
    }
  }

  lemma {:induction false} AmountReordered(a: seq<Partial>, b: seq<Partial>)
    requires multiset(a) == multiset(b)
    ensures Amount(a) == Amount(b)
    decreases |a|
  {
    assert |a| == |multiset(a)| == |multiset(b)| == |b|;
    if a != [] {
      var i := TakeOut(a, b);
      AmountReordered(a[..|a| - 1], b[..i] + b[i + 1..]);
      AmountAppend(b[..i], b[i + 1..]);
      AmountAppend(b[..i], [b[i]]);
      AmountAppend(b[..i] + [b[i]], b[i + 1..]);
      assert b == b[..i] + [b[i]] + b[i + 1..];
      assert Amount([b[i]]) == b[i].amount;
    }
  }
}
