/** The two fastest trips of every trajectory (dos_mas_rapidos.py). */
module TwoFastest {
  import opened Sequences
  import opened Permutations
  import opened Durations
  import opened Routes

  datatype Trip = Trip(start: string, destination: string, travelDuration: string)

  function Trajectory(t: Trip): string {
    Named(t.start, t.destination)
  }

  function On(trajectory: string): Trip -> bool {
    (t: Trip) => Trajectory(t) == trajectory
  }

  function Time(): Trip -> int {
    (t: Trip) => Minutes(t.travelDuration)
  }

  /** Stable insertion: behind every element that is not slower. */
  function Insert(sorted: seq<Trip>, t: Trip): (r: seq<Trip>)
    ensures |r| == |sorted| + 1
  {
    if sorted == [] || Time()(sorted[|sorted| - 1]) <= Time()(t) then sorted + [t]
    else Insert(sorted[..|sorted| - 1], t) + [sorted[|sorted| - 1]]
  }

  /** list.sort(key=duration) */
  function Sort(s: seq<Trip>): (r: seq<Trip>)
    ensures |r| == |s|
  {
    if s == [] then [] else Insert(Sort(s[..|s| - 1]), s[|s| - 1])
  }

  /** The list of a trajectory after one more trip; the first trip starts it. */
  function Keep(fastest: seq<Trip>, t: Trip): seq<Trip> {
    if fastest == [] then [t]
    else if |fastest| < 2 then Sort(fastest + [t])
    else if Time()(t) < Time()(fastest[1]) then Sort(fastest[1 := t])
    else Sort(fastest)
  }

  /** The trips from one airport to another. */
  function Between(start: string, destination: string): Trip -> bool {
    (t: Trip) => t.start == start && t.destination == destination
  }

  /** Airport codes have no dash. */
  predicate Codes(trips: seq<Trip>) {
    forall i :: 0 <= i < |trips| ==> '-' !in trips[i].start
  }

  /** What is kept for one pair of airports: nothing if no trip between them was seen, else
      the two smallest durations of exactly those trips, in order, in a list of such trips. */
  ghost predicate KeptFor(trajectory: map<string, seq<Trip>>, seen: seq<Trip>, start: string, destination: string) {
    var key, trips := start + "-" + destination, Filter(seen, Between(start, destination));
    && (key in trajectory <==> exists i :: 0 <= i < |seen| && Between(start, destination)(seen[i]))
    && (key in trajectory ==>
          && Least(Times(trajectory[key]), multiset(Times(trips)))
          && multiset(trajectory[key]) <= multiset(trips))
  }

  /** The list of a trajectory after all its trips. */
  function Fastest(trips: seq<Trip>): seq<Trip> {
    if trips == [] then [] else Keep(Fastest(trips[..|trips| - 1]), trips[|trips| - 1])
  }

  /** Some trip has the key. */
  ghost predicate IsSeen(seen: seq<Trip>, r: string) {
    exists i :: 0 <= i < |seen| && r == seen[i].start + "-" + seen[i].destination
  }

  ghost predicate Kept(trajectory: map<string, seq<Trip>>, seen: seq<Trip>) {
    && (forall r :: r in trajectory <==> Filter(seen, On(r)) != [])
    && (forall r :: r in trajectory ==> trajectory[r] == Fastest(Filter(seen, On(r))))
  }

  class DosMasRapidos {
    var trajectory: map<string, seq<Trip>>
    ghost var seen: seq<Trip>

    ghost predicate Valid()
      reads this
    {
      Kept(trajectory, seen)
    }

    constructor ()
      ensures Valid() && seen == []
    {
      trajectory, seen := map[], [];
    }

    method Process(message: Trip)
      requires Valid()
      modifies this
      ensures Valid() && seen == old(seen) + [message]
      ensures forall r :: r in trajectory ==> IsSeen(seen, r)
      ensures Codes(seen) ==>
        forall start, destination :: '-' !in start ==> KeptFor(trajectory, seen, start, destination)
    {
      hide IsSeen, KeptFor, Codes, Kept;
      KeepTrip(message);
      KeptMeans(trajectory, seen);
    }

    method KeepTrip(message: Trip)
      requires Valid()
      modifies this
      ensures Valid() && seen == old(seen) + [message]
    {
      hide Keep, Sort, Insert, Minutes, Least, Times, Fastest, Trajectory;
      var key := Trajectory(message);
      OneMoreTrip(seen, message);
      if key !in trajectory {
        trajectory := trajectory[key := [message]];
      } else {
        KeptSome(Filter(seen, On(key)));
        var fastest := AddToFastest(trajectory[key], message);
        trajectory := trajectory[key := fastest];
      }
      assert trajectory[key] == Fastest(Filter(seen + [message], On(key)));
      assert forall r :: r != key ==> Filter(seen + [message], On(r)) == Filter(seen, On(r));
      seen := seen + [message];
    }

    /** The in-place update of one list. */
    static method AddToFastest(fastest: seq<Trip>, message: Trip) returns (r: seq<Trip>)
      requires fastest != []
      ensures r == Keep(fastest, message)
      ensures forall all :: Least(Times(fastest), all) ==> Least(Times(r), all + multiset{Time()(message)})
    {
      hide Minutes, Sort, Least, Times;
      r := fastest;
      if |r| < 2 {
        r := r + [message];
      } else if Time()(message) < Time()(r[1]) {
        r := r[1 := message];
      }
      r := Sort(r);
      forall all | Least(Times(fastest), all)
        ensures Least(Times(r), all + multiset{Time()(message)})
      {
        KeepLeast(fastest, message, all);
      }
    }
  }

  /** Without dashes in the codes, the trips under one key are those of one pair of airports. */
  lemma {:induction false} SamePair(seen: seq<Trip>, start: string, destination: string)
    requires Codes(seen) && '-' !in start
    ensures Filter(seen, On(start + "-" + destination)) == Filter(seen, Between(start, destination))
  {
    if seen != [] {
      var last := seen[|seen| - 1];
      SamePair(seen[..|seen| - 1], start, destination);
      SameRoute(last.start, last.destination, start, destination);
    }
  }

  lemma PairIsKept(trajectory: map<string, seq<Trip>>, seen: seq<Trip>, start: string, destination: string)
    requires Kept(trajectory, seen) && Codes(seen) && '-' !in start
    ensures KeptFor(trajectory, seen, start, destination)
  {
    var trips := Filter(seen, Between(start, destination));
    SamePair(seen, start, destination);
    FastestAreLeast(trips);
    FastestAreTrips(trips);
    SomeKept(seen, Between(start, destination));
    hide Fastest, Least, Times, Filter, Codes;
  }

  /** The filtered list is not empty if and only if something passes the filter. */
  lemma SomeKept(seen: seq<Trip>, keep: Trip -> bool)
    ensures Filter(seen, keep) != [] <==> exists i :: 0 <= i < |seen| && keep(seen[i])
  {
    if Filter(seen, keep) != [] {
      FilterHas(seen, keep, Filter(seen, keep)[0]);
    }
    if i :| 0 <= i < |seen| && keep(seen[i]) {
      FilterHas(seen, keep, seen[i]);
    }
  }

  lemma KeptMeans(trajectory: map<string, seq<Trip>>, seen: seq<Trip>)
    requires Kept(trajectory, seen)
    ensures forall r :: r in trajectory ==> IsSeen(seen, r)
    ensures Codes(seen) ==>
      forall start, destination :: '-' !in start ==> KeptFor(trajectory, seen, start, destination)
  {
    forall r | r in trajectory
      ensures IsSeen(seen, r)
    {
      SomeKept(seen, On(r));
    }
    hide Kept, KeptFor, Codes;
    if Codes(seen) {
      forall start: string, destination: string | '-' !in start
        ensures KeptFor(trajectory, seen, start, destination)
      {
        PairIsKept(trajectory, seen, start, destination);
      }
    }
  }

  lemma OneMoreTrip(seen: seq<Trip>, t: Trip)
    ensures forall r :: Filter(seen + [t], On(r)) == Filter(seen, On(r)) + (if r == Trajectory(t) then [t] else [])
    ensures Fastest(Filter(seen + [t], On(Trajectory(t)))) == Keep(Fastest(Filter(seen, On(Trajectory(t)))), t)
    ensures Filter(seen, On(Trajectory(t))) == [] ==> Keep(Fastest(Filter(seen, On(Trajectory(t)))), t) == [t]
  {
    forall r
      ensures Filter(seen + [t], On(r)) == Filter(seen, On(r)) + (if r == Trajectory(t) then [t] else [])
    {
      FilterLast(seen, t, On(r));
    }
    var before := Filter(seen, On(Trajectory(t)));
    assert (before + [t])[..|before|] == before;
  }

  // ---------- what is kept ----------

  /** `kept` are, in order, the two smallest of `all` (or fewer, if there are fewer). */
  ghost predicate Least(kept: seq<int>, all: multiset<int>) {
    && |kept| == (if |all| < 2 then |all| else 2)
    && multiset(kept) <= all
    && (|kept| == 2 ==> kept[0] <= kept[1] && forall x :: x in all - multiset(kept) ==> kept[1] <= x)
  }

  /** The two smallest are unique. */
  lemma LeastUnique(a: seq<int>, b: seq<int>, all: multiset<int>)
    requires Least(a, all) && Least(b, all)
    ensures a == b
  {
    if |all| == 1 {
      assert a == [a[0]] && b == [b[0]] && a[0] in multiset(a) && b[0] in multiset(b);
      assert |all - multiset(a)| == 0;
      assert b[0] in all && b[0] !in all - multiset(a);
    } else if |all| >= 2 {
      LeastFirst(a, all, b[0]);
      LeastFirst(b, all, a[0]);
      LeastSecond(a, b, all);
      LeastSecond(b, a, all);
    }
  }

  lemma LeastFirst(a: seq<int>, all: multiset<int>, x: int)
    requires Least(a, all) && |all| >= 2
    ensures a[0] in all && a[1] in all && (x in all ==> a[0] <= x)
  {
    assert a == [a[0], a[1]];
    assert multiset(a) == multiset{a[0], a[1]};
    assert x in all ==> x in all - multiset(a) || x in multiset(a);
  }

  lemma LeastSecond(a: seq<int>, b: seq<int>, all: multiset<int>)
    requires Least(a, all) && Least(b, all) && |all| >= 2 && a[0] == b[0]
    ensures a[1] <= b[1]
  {
    var x := b[1];
    PairCount(a, x);
    PairCount(b, x);
    assert multiset(b)[x] <= all[x];
    assert (all - multiset(a))[x] >= all[x] - multiset(a)[x];
    assert x in all - multiset(a) ==> a[1] <= x;
  }

  lemma PairCount(a: seq<int>, x: int)
    requires |a| == 2
    ensures multiset(a)[x] == (if x == a[0] then 1 else 0) + (if x == a[1] then 1 else 0)
  {
    assert a == [a[0], a[1]];
  }

  function Times(s: seq<Trip>): seq<int> {
    Map(s, Time())
  }

  lemma SortOne(a: Trip)
    ensures Sort([a]) == [a]
  {
    hide Minutes;
    assert [a][..0] == [];
  }

  lemma InsertOne(a: Trip, b: Trip)
    ensures Insert([a], b) == if Time()(a) <= Time()(b) then [a, b] else [b, a]
  {
    hide Minutes, Sort;
    assert [a][..0] == [];
    assert [] + [b] == [b];
  }

  /** Sorting two trips: the slower one goes last. */
  lemma SortTwo(a: Trip, b: Trip)
    ensures Sort([a, b]) == if Time()(a) <= Time()(b) then [a, b] else [b, a]
  {
    hide Minutes, Insert;
    SortOne(a);
    assert [a, b][..1] == [a];
    InsertOne(a, b);
  }

  lemma KeepSecond(a: Trip, t: Trip, all: multiset<int>)
    requires Least(Times([a]), all)
    ensures Least(Times(Keep([a], t)), all + multiset{Time()(t)})
  {
    hide Minutes, Sort, Least;
    assert [a] + [t] == [a, t];
    assert Times([a]) == [Time()(a)];
    SortTwo(a, t);
    TimesOfTwo(Keep([a], t));
    SecondLeast(Time()(a), Time()(t), all);
  }

  lemma KeepThird(a: Trip, b: Trip, t: Trip, all: multiset<int>)
    requires Least(Times([a, b]), all)
    ensures Least(Times(Keep([a, b], t)), all + multiset{Time()(t)})
  {
    TimesOfTwo([a, b]);
    assert Time()(a) <= Time()(b);
    hide Minutes, Sort, Least;
    assert [a, b][1 := t] == [a, t];
    SortTwo(a, b);
    SortTwo(a, t);
    TimesOfTwo(Keep([a, b], t));
    NewLeast(Time()(a), Time()(b), Time()(t), all);
  }

  /** Keeping the list keeps the two smallest. */
  lemma KeepLeast(fastest: seq<Trip>, t: Trip, all: multiset<int>)
    requires Least(Times(fastest), all)
    ensures Least(Times(Keep(fastest, t)), all + multiset{Time()(t)})
  {
    LeastSize(Times(fastest), all);
    hide Minutes, Least, Sort;
    if |fastest| == 0 {
      FirstLeast(t, all);
    } else if |fastest| == 1 {
      assert fastest == [fastest[0]];
      KeepSecond(fastest[0], t, all);
    } else {
      assert fastest == [fastest[0], fastest[1]];
      KeepThird(fastest[0], fastest[1], t, all);
    }
  }

  lemma FirstLeast(t: Trip, all: multiset<int>)
    requires |all| == 0
    ensures Least(Times([t]), all + multiset{Time()(t)})
  {
    hide Minutes;
    assert all == multiset{} && Times([t]) == [Time()(t)];
  }

  lemma TimesOfTwo(two: seq<Trip>)
    ensures |two| == 2 ==> Times(two) == [Time()(two[0]), Time()(two[1])]
  {
    hide Minutes;
  }

  /** A second duration joins the only one. */
  lemma SecondLeast(y: int, x: int, all: multiset<int>)
    requires Least([y], all)
    ensures Least(if y <= x then [y, x] else [x, y], all + multiset{x})
  {
    assert multiset([y]) == multiset{y};
    assert |all| == 1 && |all - multiset{y}| == 0;
    assert all == multiset{y};
    OnlyTwo(y, x);
  }

  lemma OnlyTwo(y: int, x: int)
    ensures Least(if y <= x then [y, x] else [x, y], multiset{y} + multiset{x})
  {
    var kept := if y <= x then [y, x] else [x, y];
    assert multiset(kept) == multiset{y} + multiset{x};
  }

  /** One more duration against the two smallest so far. */
  lemma NewLeast(a: int, b: int, x: int, all: multiset<int>)
    requires Least([a, b], all) && |all| >= 2
    ensures Least(if x >= b then [a, b] else if a <= x then [a, x] else [x, a], all + multiset{x})
  {
    var kept := if x >= b then [a, b] else if a <= x then [a, x] else [x, a];
    assert multiset([a, b]) == multiset{a, b};
    assert multiset(kept) == if x >= b then multiset{a, b} else multiset{a, x};
    assert |kept| == 2 && kept[1] <= b;
    forall y | y in all + multiset{x} - multiset(kept)
      ensures kept[1] <= y
    {
      LeftOver(a, b, x, y, all);
    }
    assert multiset(kept) <= all + multiset{x};
    assert |all + multiset{x}| == |all| + 1;
  }

  /** What is left over was left over before, or is the one that did not make it. */
  lemma LeftOver(a: int, b: int, x: int, y: int, all: multiset<int>)
    requires multiset{a, b} <= all
    ensures y in all + multiset{x} - multiset{a, b} ==> y in all - multiset{a, b} || y == x
    ensures y in all + multiset{x} - multiset{a, x} ==> y in all - multiset{a, b} || y == b
  {
    assert all[a] >= multiset{a, b}[a] && all[b] >= multiset{a, b}[b];
  }

  /** The list of a trajectory holds the two smallest durations of all its trips, in order. */
  lemma {:induction false} FastestAreLeast(trips: seq<Trip>)
    ensures Least(Times(Fastest(trips)), multiset(Times(trips)))
  {
    if trips == [] {
      assert Times(trips) == [];
    } else {
      hide Keep, Least, Times, Time;
      var front, last := trips[..|trips| - 1], trips[|trips| - 1];
      FastestAreLeast(front);
      KeepLeast(Fastest(front), last, multiset(Times(front)));
      LastTime(trips);
    }
  }

  lemma LastTime(trips: seq<Trip>)
    requires trips != []
    ensures multiset(Times(trips)) == multiset(Times(trips[..|trips| - 1])) + multiset{Time()(trips[|trips| - 1])}
  {
    hide Minutes;
    assert Times(trips) == Times(trips[..|trips| - 1]) + [Time()(trips[|trips| - 1])];
  }

  /** And it holds trips of that trajectory only, none of them twice. */
  lemma {:induction false} FastestAreTrips(trips: seq<Trip>)
    ensures multiset(Fastest(trips)) <= multiset(trips)
  {
    if trips != [] {
      hide Keep, Minutes, Least;
      var front, last := trips[..|trips| - 1], trips[|trips| - 1];
      FastestAreTrips(front);
      FastestAreLeast(front);
      LeastSize(Times(Fastest(front)), multiset(Times(front)));
      KeepTrips(Fastest(front), last);
      FrontAndLast(trips);
    }
  }

  lemma LeastSize(kept: seq<int>, all: multiset<int>)
    requires Least(kept, all)
    ensures |kept| <= 2 && (|kept| == 0 <==> |all| == 0)
  {
  }

  lemma KeepTrips(fastest: seq<Trip>, t: Trip)
    requires |fastest| <= 2
    ensures multiset(Keep(fastest, t)) <= multiset(fastest) + multiset{t}
  {
    hide Minutes, Sort;
    if |fastest| == 1 {
      assert fastest == [fastest[0]] && fastest + [t] == [fastest[0], t];
      SortTwo(fastest[0], t);
    } else if |fastest| == 2 {
      assert fastest == [fastest[0], fastest[1]];
      assert fastest[1 := t] == [fastest[0], t];
      SortTwo(fastest[0], fastest[1]);
      SortTwo(fastest[0], t);
    }
  }

  lemma KeptSome(trips: seq<Trip>)
    ensures trips != [] ==> Fastest(trips) != []
  {
    FastestAreLeast(trips);
    hide Fastest;
    assert |multiset(Times(trips))| == |trips|;
    assert |Times(Fastest(trips))| == |Fastest(trips)|;
  }

  /** The order of the trips does not matter for the durations kept: replaying the saved
      batches newest first after a crash restores the durations of every trajectory. */
  lemma {:induction false} ReplayKeepsDurations(batches: seq<seq<Trip>>, trajectory: string)
    ensures Times(Fastest(Filter(Flatten(Reverse(batches)), On(trajectory))))
         == Times(Fastest(Filter(Flatten(batches), On(trajectory))))
  {
    var after, before := Filter(Flatten(Reverse(batches)), On(trajectory)), Filter(Flatten(batches), On(trajectory));
    ReplayReordered(batches);
    FilterReordered(Flatten(Reverse(batches)), Flatten(batches), On(trajectory));
    MapReordered(after, before, Time());
    FastestAreLeast(after);
    FastestAreLeast(before);
    LeastUnique(Times(Fastest(after)), Times(Fastest(before)), multiset(Times(before)));
  }
}
