/**
 The text that names a route (`"{start}-{destination}"` in grouper.py, load_balancer.py and
 dos_mas_rapidos.py), and when two routes have the same name.
 */
module Routes {
  function Named(start: string, destination: string): string {
    start + "-" + destination
  }

  /** `long` begins with `short` and a dash. */
  predicate Extends(long: string, short: string) {
    |long| > |short| && long[..|short|] == short && long[|short|] == '-'
  }

  /** Two routes have the same name if and only if they are the same, or a dash in one start
      is read as the dash between the two airports of the other. */
  lemma SameNameExactly(a: string, b: string, c: string, d: string)
    ensures a + "-" + b == c + "-" + d
       <==> (a == c && b == d)
            || (Extends(a, c) && d == a[|c| + 1..] + "-" + b)
            || (Extends(c, a) && b == c[|a| + 1..] + "-" + d)
  {
    if |a| == |c| {
      SplitAt(a, b, c, d);
    } else if |a| < |c| {
      LongerStart(a, b, c, d);
    } else {
      LongerStart(c, d, a, b);
    }
  }

  lemma SplitAt(a: string, b: string, c: string, d: string)
    requires |a| == |c|
    ensures a + "-" + b == c + "-" + d <==> a == c && b == d
  {
    if a + "-" + b == c + "-" + d {
      assert a == (a + "-" + b)[..|a|] && b == (a + "-" + b)[|a| + 1..];
      assert c == (c + "-" + d)[..|a|] && d == (c + "-" + d)[|a| + 1..];
    }
  }

  lemma LongerStart(a: string, b: string, c: string, d: string)
    requires |a| < |c|
    ensures a + "-" + b == c + "-" + d <==> Extends(c, a) && b == c[|a| + 1..] + "-" + d
  {
    var left, right := a + "-" + b, c + "-" + d;
    if left == right {
      assert left[..|a|] == a && right[..|a|] == c[..|a|];
      assert left[|a|] == '-' && right[|a|] == c[|a|];
      assert left[|a| + 1..] == b && right[|a| + 1..] == c[|a| + 1..] + "-" + d;
    }
    if Extends(c, a) && b == c[|a| + 1..] + "-" + d {
      assert c == a + "-" + c[|a| + 1..];
      assert left == a + "-" + c[|a| + 1..] + "-" + d;
    }
  }

  /** Starts without a dash, as airport codes are, keep the routes apart. */
  lemma SameRoute(a: string, b: string, c: string, d: string)
    requires '-' !in a && '-' !in c
    ensures a + "-" + b == c + "-" + d <==> a == c && b == d
  {
    SameNameExactly(a, b, c, d);
  }

  /** From A to B-C and from A-B to C are one route. */
  lemma DashesClash()
    ensures Named("A", "B-C") == Named("A-B", "C")
  {
    assert Named("A", "B-C") == "A-B-C" == Named("A-B", "C");
  }
}
