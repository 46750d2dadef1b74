/** The production dependencies of a package, collected into a shared set. */
module DepTree {
  import opened Basics

  type Name = string

  /** The installed packages and what each package.json depends on. */
  type Graph = map<Name, seq<Name>>

  /** Packages that hold types only. */
  predicate Skipped(dep: Name) {
    "@types/" <= dep || dep == "@webgpu/types"
  }

  /** Exactly the names under `@types`, and one more. */
  lemma SkippedAre(dep: Name)
    ensures Skipped(dep) <==> dep == "@webgpu/types" || exists rest: string :: dep == "@types/" + rest
  {
    if "@types/" <= dep {
      assert dep == "@types/" + dep[|"@types/"|..];
    }
  }

  ghost predicate Edge(g: Graph, a: Name, b: Name) {
    a in g && b in g[a] && !Skipped(b)
  }

  ghost predicate Walk(g: Graph, p: seq<Name>) {
    forall i | 0 <= i < |p| - 1 :: Edge(g, p[i], p[i + 1])
  }

  ghost predicate WalkBetween(g: Graph, p: seq<Name>, a: Name, b: Name) {
    |p| >= 2 && p[0] == a && p[|p| - 1] == b && Walk(g, p)
  }

  /** `b` is reached from `a` by one or more edges. */
  ghost predicate Reaches(g: Graph, a: Name, b: Name) {
    exists p :: WalkBetween(g, p, a, b)
  }

  function Mentioned(g: Graph): set<Name> {
    set a, b | a in g && b in g[a] :: b
  }

  lemma EdgeReaches(g: Graph, a: Name, b: Name)
    requires Edge(g, a, b)
    ensures Reaches(g, a, b)
  {
    assert WalkBetween(g, [a, b], a, b);
  }

  lemma EdgeThenReaches(g: Graph, a: Name, b: Name, c: Name)
    requires Edge(g, a, b) && Reaches(g, b, c)
    ensures Reaches(g, a, c)
  {
    var p :| WalkBetween(g, p, b, c);
    var q := [a] + p;
    assert forall i | 0 <= i < |q| - 1 :: Edge(g, q[i], q[i + 1]) by {
      forall i | 0 <= i < |q| - 1 ensures Edge(g, q[i], q[i + 1]) {
        assert i > 0 ==> Edge(g, p[i - 1], p[i]);
      }
    }
    assert WalkBetween(g, q, a, c);
  }

  /** Package `a` is installed and all it needs is in `s`. */
  ghost predicate Served(g: Graph, a: Name, s: set<Name>) {
    a in g && forall b | Edge(g, a, b) :: b in s
  }

  /** A set that serves its members and the root holds all that is reached. */
  lemma {:induction false} ServedHoldsWalk(g: Graph, s: set<Name>, p: seq<Name>)
    requires |p| >= 2 && Walk(g, p)
    requires Served(g, p[0], s) && forall a | a in s :: Served(g, a, s)
    ensures p[|p| - 1] in s
  {
    assert Edge(g, p[0], p[1]);
    if |p| > 2 {
      var q := p[1..];
      assert forall i | 0 <= i < |q| - 1 :: Edge(g, q[i], q[i + 1]) by {
        forall i | 0 <= i < |q| - 1 ensures Edge(g, q[i], q[i + 1]) {
          assert Edge(g, p[i + 1], p[i + 2]);
        }
      }
      ServedHoldsWalk(g, s, q);
    }
  }

  /** A set shared by the whole recursion. */
  class NameSet {
    var items: set<Name>

    constructor ()
      ensures items == {}
    {
      items := {};
    }

    method Add(x: Name)
      modifies this
      ensures items == old(items) + {x}
    {
      items := items + {x};
    }
  }

  /** What one call adds: only names reached from `name`; and if it did not
      stop at a missing package, all that `name` and the added names need. */
  ghost predicate Grown(g: Graph, name: Name, before: set<Name>, after: set<Name>) {
    before <= after && forall x | x in after - before :: Reaches(g, name, x)
  }

  ghost predicate AllServed(g: Graph, before: set<Name>, after: set<Name>) {
    forall x | x in after - before :: Served(g, x, after)
  }

  ghost predicate Stopped(g: Graph, name: Name) {
    name !in g || exists x :: Reaches(g, name, x) && x !in g
  }

  method Collect(g: Graph, name: Name, seen: NameSet) returns (ok: bool)
    modifies seen
    ensures Grown(g, name, old(seen.items), seen.items)
    ensures ok ==> Served(g, name, seen.items)
    ensures ok ==> AllServed(g, old(seen.items), seen.items)
    ensures !ok ==> Stopped(g, name)
    decreases |Mentioned(g) - seen.items|
  {
    if name !in g {
      return false;
    }
    for i := 0 to |g[name]|
      invariant Grown(g, name, old(seen.items), seen.items)
      invariant forall j | 0 <= j < i :: Edge(g, name, g[name][j]) ==> g[name][j] in seen.items
      invariant AllServed(g, old(seen.items), seen.items)
    {
      var dep := g[name][i];
      if Skipped(dep) || dep in seen.items {
        continue;
      }
      ghost var before := seen.items;
      seen.Add(dep);
      Shrinks(g, name, dep, old(seen.items), before);
      var fine := Collect(g, dep, seen);
      GrowsOn(g, name, dep, old(seen.items), before, seen.items);
      if !fine {
        StopsOn(g, name, dep);
        return false;
      }
      ServesOn(g, dep, old(seen.items), before, seen.items);
    }
    return true;
  }

  lemma Shrinks(g: Graph, name: Name, dep: Name, first: set<Name>, before: set<Name>)
    requires Edge(g, name, dep) && first <= before && dep !in before
    ensures |Mentioned(g) - (before + {dep})| < |Mentioned(g) - first|
  {
    var small, big := Mentioned(g) - (before + {dep}), Mentioned(g) - first;
    assert dep in big && small <= big - {dep};
    SubsetSize(small, big - {dep});
  }

  lemma GrowsOn(g: Graph, name: Name, dep: Name, first: set<Name>, before: set<Name>, after: set<Name>)
    requires Edge(g, name, dep) && Grown(g, name, first, before) && Grown(g, dep, before + {dep}, after)
    ensures Grown(g, name, first, after)
  {
    EdgeReaches(g, name, dep);
    forall x | x in after - first ensures Reaches(g, name, x) {
      if x in after - (before + {dep}) {
        EdgeThenReaches(g, name, dep, x);
      }
    }
  }

  lemma ServesOn(g: Graph, dep: Name, first: set<Name>, before: set<Name>, after: set<Name>)
    requires AllServed(g, first, before) && before + {dep} <= after
    requires Served(g, dep, after) && AllServed(g, before + {dep}, after)
    ensures AllServed(g, first, after)
  {
    forall x | x in after - first ensures Served(g, x, after) {
      if x in before {
        assert Served(g, x, before);
      }
    }
  }

  lemma StopsOn(g: Graph, name: Name, dep: Name)
    requires Edge(g, name, dep) && Stopped(g, dep)
    ensures Stopped(g, name)
  {
    EdgeReaches(g, name, dep);
    if dep in g {
      var x :| Reaches(g, dep, x) && x !in g;
      EdgeThenReaches(g, name, dep, x);
    }
  }

  lemma ServedIsReached(g: Graph, name: Name, seen: set<Name>)
    requires Served(g, name, seen) && AllServed(g, {}, seen) && Grown(g, name, {}, seen)
    ensures forall x :: x in seen <==> Reaches(g, name, x)
    ensures forall x | Reaches(g, name, x) :: x in g
  {
    forall x | x in seen ensures Served(g, x, seen) && Reaches(g, name, x) {
      assert x in seen - {};
    }
    forall x | Reaches(g, name, x) ensures x in seen && x in g {
      var p :| WalkBetween(g, p, name, x);
      ServedHoldsWalk(g, seen, p);
    }
  }

  /** On a fresh set: stops exactly when `name` or something it reaches is not
      installed, and otherwise collects exactly what is reached. */
  method Tree(g: Graph, name: Name) returns (seen: set<Name>, ok: bool)
    ensures ok <==> name in g && forall x | Reaches(g, name, x) :: x in g
    ensures ok ==> forall x :: x in seen <==> Reaches(g, name, x)
  {
    var shared := new NameSet();
    ok := Collect(g, name, shared);
    seen := shared.items;
    if ok {
      ServedIsReached(g, name, seen);
    }
  }
}
