// The module graph part of `production_rust_sources` in scripts/verify-windows-release.py:
// which source files only a #[cfg(test)] declaration can reach.
module ModuleReachability {

  type Path = string

  // edges[file]: the modules a file declares, and whether the declaration is test-only.
  type Edges = map<Path, seq<(Path, bool)>>

  predicate IsGraph(edges: Edges)
  {
    forall p <- edges, e <- edges[p] :: e.0 in edges
  }

  predicate Declares(edges: Edges, p: Path, e: (Path, bool))
  {
    p in edges && e in edges[p]
  }

  // ---------------------------------------------------------------- walks

  datatype Link = Link(source: Path, target: Path, conditional: bool)

  ghost predicate IsWalk(edges: Edges, from: Path, walk: seq<Link>, to: Path)
  {
    if walk == [] then from == to
    else
      var last := walk[|walk| - 1];
      && last.target == to
      && Declares(edges, last.source, (last.target, last.conditional))
      && IsWalk(edges, from, walk[..|walk| - 1], last.source)
  }

  ghost predicate IsConditional(walk: seq<Link>) { exists l <- walk :: l.conditional }

  ghost predicate IsRoot(edges: Edges, root: Path)
  {
    root in edges && forall p <- edges, e <- edges[p] :: e.0 != root
  }

  // Some walk from a root reaches p, and uses a test-only declaration exactly if `testOnly`.
  ghost predicate Reaches(edges: Edges, p: Path, testOnly: bool)
  {
    exists root, walk :: ReachesBy(edges, root, walk, p, testOnly)
  }

  ghost predicate ReachesBy(edges: Edges, root: Path, walk: seq<Link>, p: Path, testOnly: bool)
  {
    IsRoot(edges, root) && IsWalk(edges, root, walk, p) && IsConditional(walk) == testOnly
  }

  lemma RootIsReached(edges: Edges, root: Path)
    requires IsRoot(edges, root)
    ensures Reaches(edges, root, false)
  {
    assert ReachesBy(edges, root, [], root, false);
  }

  lemma StepIsReached(edges: Edges, p: Path, testOnly: bool, e: (Path, bool))
    requires Reaches(edges, p, testOnly) && Declares(edges, p, e)
    ensures Reaches(edges, e.0, testOnly || e.1)
  {
    var root, walk :| ReachesBy(edges, root, walk, p, testOnly);
    var link := Link(p, e.0, e.1);
    var longer := walk + [link];
    assert longer[..|walk|] == walk && link in longer;
    assert forall l :: l in longer <==> l in walk || l == link;
    assert ReachesBy(edges, root, longer, e.0, testOnly || e.1);
  }

  // ---------------------------------------------------------------- the worklist

  ghost predicate Known(reachable: set<(Path, bool)>, pending: seq<(Path, bool)>, x: (Path, bool))
  {
    x in reachable || x in pending
  }

  ghost predicate ClosedUnder(edges: Edges, reachable: set<(Path, bool)>, pending: seq<(Path, bool)>)
  {
    forall x <- reachable, e :: Declares(edges, x.0, e) ==> Known(reachable, pending, (e.0, x.1 || e.1))
  }

  ghost predicate Sound(edges: Edges, reachable: set<(Path, bool)>, pending: seq<(Path, bool)>)
  {
    && (forall x <- reachable :: Reaches(edges, x.0, x.1))
    && (forall x <- pending :: Reaches(edges, x.0, x.1))
  }

  ghost function Universe(edges: Edges): set<(Path, bool)>
  {
    set p <- edges.Keys, b <- {false, true} :: (p, b)
  }

  // A closed set that holds the roots holds everything a walk reaches.
  lemma {:induction false} ClosedIsComplete(edges: Edges, reachable: set<(Path, bool)>, root: Path, walk: seq<Link>,
        p: Path)
    requires ClosedUnder(edges, reachable, []) && (root, false) in reachable && IsWalk(edges, root, walk, p)
    ensures (p, IsConditional(walk)) in reachable
    decreases |walk|
  {
    if walk != [] {
      var init, last := walk[..|walk| - 1], walk[|walk| - 1];
      ClosedIsComplete(edges, reachable, root, init, last.source);
      assert walk == init + [last];
      assert forall l :: l in walk <==> l in init || l == last;
      assert Declares(edges, last.source, (last.target, last.conditional));
      assert Known(reachable, [], (last.target, IsConditional(init) || last.conditional));
    }
  }

  // One turn of the loop for a pair not seen before.
  lemma VisitKeepsClosed(edges: Edges, reachable: set<(Path, bool)>, pending: seq<(Path, bool)>, x: (Path, bool),
        more: seq<(Path, bool)>)
    requires ClosedUnder(edges, reachable, pending + [x])
    requires forall e :: Declares(edges, x.0, e) ==> (e.0, x.1 || e.1) in more
    ensures ClosedUnder(edges, reachable + {x}, pending + more)
  {
    forall y <- reachable + {x}, e | Declares(edges, y.0, e)
      ensures Known(reachable + {x}, pending + more, (e.0, y.1 || e.1))
    {
      if y in reachable {
        assert Known(reachable, pending + [x], (e.0, y.1 || e.1));
      }
    }
  }

  lemma VisitKeepsRoots(edges: Edges, reachable: set<(Path, bool)>, pending: seq<(Path, bool)>, x: (Path, bool),
        more: seq<(Path, bool)>)
    requires RootsKnown(edges, reachable, pending + [x])
    ensures RootsKnown(edges, reachable + {x}, pending + more)
  {
    forall root | IsRoot(edges, root)
      ensures Known(reachable + {x}, pending + more, (root, false))
    {
      assert Known(reachable, pending + [x], (root, false));
    }
  }

  // A pair seen before is only taken off the list.
  lemma SkipKeepsInvariant(edges: Edges, reachable: set<(Path, bool)>, pending: seq<(Path, bool)>, x: (Path, bool))
    requires x in reachable
    requires ClosedUnder(edges, reachable, pending + [x]) && RootsKnown(edges, reachable, pending + [x])
    ensures ClosedUnder(edges, reachable, pending) && RootsKnown(edges, reachable, pending)
  {
    forall y | Known(reachable, pending + [x], y)
      ensures Known(reachable, pending, y)
    {
    }
  }

  ghost predicate RootsKnown(edges: Edges, reachable: set<(Path, bool)>, pending: seq<(Path, bool)>)
  {
    forall root :: IsRoot(edges, root) ==> Known(reachable, pending, (root, false))
  }

  lemma ClosedIsExact(edges: Edges, reachable: set<(Path, bool)>)
    requires Sound(edges, reachable, []) && ClosedUnder(edges, reachable, []) && RootsKnown(edges, reachable, [])
    ensures forall p, testOnly :: (p, testOnly) in reachable <==> Reaches(edges, p, testOnly)
  {
    forall p, testOnly | Reaches(edges, p, testOnly)
      ensures (p, testOnly) in reachable
    {
      var root, walk :| ReachesBy(edges, root, walk, p, testOnly);
      assert Known(reachable, [], (root, false));
      ClosedIsComplete(edges, reachable, root, walk, p);
    }
  }

  // What visiting a pair adds to the worklist: a test-only file or declaration makes its target
  // test-only.
  method Successors(edges: Edges, x: (Path, bool)) returns (more: seq<(Path, bool)>)
    requires IsGraph(edges) && x.0 in edges && Reaches(edges, x.0, x.1)
    ensures forall e :: Declares(edges, x.0, e) ==> (e.0, x.1 || e.1) in more
    ensures forall y <- more :: y.0 in edges && Reaches(edges, y.0, y.1)
  {
    more := [];
    var i := 0;
    while i < |edges[x.0]|
      invariant i <= |edges[x.0]|
      invariant forall k :: 0 <= k < i ==> (edges[x.0][k].0, x.1 || edges[x.0][k].1) in more
      invariant forall y <- more :: y.0 in edges && Reaches(edges, y.0, y.1)
    {
      var e := edges[x.0][i];
      assert Declares(edges, x.0, e);
      StepIsReached(edges, x.0, x.1, e);
      more := more + [(e.0, x.1 || e.1)];
      i := i + 1;
    }
  }

  method Incoming(edges: Edges) returns (incoming: set<Path>)
    ensures forall t :: t in incoming <==> exists p <- edges, e <- edges[p] :: e.0 == t
  {
    incoming := set p <- edges, e <- edges[p] :: e.0;
  }

  method Roots(edges: Edges) returns (pending: seq<(Path, bool)>)
    ensures forall root :: IsRoot(edges, root) <==> (root, false) in pending
    ensures forall x <- pending :: !x.1
  {
    var incoming := Incoming(edges);
    var roots := edges.Keys - incoming;
    pending := [];
    ghost var done: set<Path> := {};
    while roots != {}
      invariant done + roots == edges.Keys - incoming
      invariant forall x :: x in pending <==> x.0 in done && !x.1
      decreases roots
    {
      var root :| root in roots;
      roots, done := roots - {root}, done + {root};
      pending := pending + [(root, false)];
    }
    forall root
      ensures IsRoot(edges, root) <==> root in edges.Keys - incoming
    {
    }
  }

  // What the worklist keeps.
  ghost predicate Exploring(edges: Edges, reachable: set<(Path, bool)>, pending: seq<(Path, bool)>)
  {
    && Sound(edges, reachable, pending) && ClosedUnder(edges, reachable, pending)
    && RootsKnown(edges, reachable, pending)
    && reachable <= Universe(edges) && (forall x <- pending :: x.0 in edges)
  }

  lemma RootsStart(edges: Edges, pending: seq<(Path, bool)>)
    requires IsGraph(edges) && forall x <- pending :: !x.1
    requires forall root :: IsRoot(edges, root) <==> (root, false) in pending
    ensures Exploring(edges, {}, pending)
  {
    forall x <- pending
      ensures x.0 in edges && Reaches(edges, x.0, x.1)
    {
      assert x == (x.0, false);
      RootIsReached(edges, x.0);
    }
  }

  lemma SkipExplores(edges: Edges, reachable: set<(Path, bool)>, rest: seq<(Path, bool)>, x: (Path, bool))
    requires Exploring(edges, reachable, rest + [x]) && x in reachable
    ensures Exploring(edges, reachable, rest)
  {
    SkipKeepsInvariant(edges, reachable, rest, x);
    assert forall y :: y in rest ==> y in rest + [x];
  }

  lemma VisitExplores(edges: Edges, reachable: set<(Path, bool)>, rest: seq<(Path, bool)>, x: (Path, bool),
        more: seq<(Path, bool)>)
    requires Exploring(edges, reachable, rest + [x])
    requires forall e :: Declares(edges, x.0, e) ==> (e.0, x.1 || e.1) in more
    requires forall y <- more :: y.0 in edges && Reaches(edges, y.0, y.1)
    ensures Exploring(edges, reachable + {x}, rest + more) && x in Universe(edges)
  {
    VisitKeepsClosed(edges, reachable, rest, x, more);
    VisitKeepsRoots(edges, reachable, rest, x, more);
    assert x in rest + [x] && forall y :: y in rest ==> y in rest + [x];
  }

  lemma LastIsNext(edges: Edges, reachable: set<(Path, bool)>, pending: seq<(Path, bool)>)
    requires Exploring(edges, reachable, pending) && pending != []
    ensures var x, rest := pending[|pending| - 1], pending[..|pending| - 1];
            Exploring(edges, reachable, rest + [x]) && x.0 in edges && Reaches(edges, x.0, x.1)
  {
    assert pending == pending[..|pending| - 1] + [pending[|pending| - 1]];
    assert pending[|pending| - 1] in pending;
  }

  method ReachablePairs(edges: Edges) returns (reachable: set<(Path, bool)>)
    requires IsGraph(edges)
    ensures forall p, testOnly :: (p, testOnly) in reachable <==> Reaches(edges, p, testOnly)
  {
    var pending := Roots(edges);
    reachable := {};
    RootsStart(edges, pending);
    while pending != []
      invariant Exploring(edges, reachable, pending)
      decreases Universe(edges) - reachable, |pending|
    {
      LastIsNext(edges, reachable, pending);
      var x, rest := pending[|pending| - 1], pending[..|pending| - 1];
      if x in reachable {
        SkipExplores(edges, reachable, rest, x);
        pending := rest;
      } else {
        var more := Successors(edges, x);
        VisitExplores(edges, reachable, rest, x, more);
        reachable, pending := reachable + {x}, rest + more;
      }
    }
    ClosedIsExact(edges, reachable);
  }

  // A file is dropped exactly when some walk from a root needs a test-only declaration to reach
  // it and none does without; in particular what no root reaches stays subject to the gate.
  ghost predicate IsProduction(edges: Edges, p: Path)
  {
    p in edges && !(Reaches(edges, p, true) && !Reaches(edges, p, false))
  }

  method ProductionFiles(edges: Edges) returns (production: set<Path>)
    requires IsGraph(edges)
    ensures forall p :: p in production <==> IsProduction(edges, p)
  {
    var reachable := ReachablePairs(edges);
    var testOnly := (set x <- reachable | x.1 :: x.0) - (set x <- reachable | !x.1 :: x.0);
    forall p
      ensures p in testOnly <==> Reaches(edges, p, true) && !Reaches(edges, p, false)
    {
      assert (p, true) in reachable ==> exists x <- reachable :: x.1 && x.0 == p;
      assert (p, false) in reachable ==> exists x <- reachable :: !x.1 && x.0 == p;
    }
    production := edges.Keys - testOnly;
  }

  // No root leads to the file: it is declared, but only from within a cycle of declarations.
  ghost predicate Unreached(edges: Edges, p: Path)
  {
    p in edges && !Reaches(edges, p, false) && !Reaches(edges, p, true)
  }

  // What a kept file declares unconditionally is kept.
  ghost predicate IsClosed(edges: Edges)
  {
    forall p, e | IsProduction(edges, p) && Declares(edges, p, e) && !e.1 :: IsProduction(edges, e.0)
  }

  // Of what unreached files declare unconditionally, production reaches all that tests reach.
  ghost predicate UnreachedShareNothing(edges: Edges)
  {
    forall p, e | Unreached(edges, p) && Declares(edges, p, e) && !e.1 ::
      Reaches(edges, e.0, true) ==> Reaches(edges, e.0, false)
  }

  lemma ReachedKeepsItsModule(edges: Edges, p: Path, e: (Path, bool))
    requires IsGraph(edges) && Reaches(edges, p, false) && Declares(edges, p, e) && !e.1
    ensures IsProduction(edges, e.0)
  {
    StepIsReached(edges, p, false, e);
  }

  // Whether the kept files are closed under unconditional declarations is decided by the files
  // that no root reaches.
  lemma ProductionIsClosedExactly(edges: Edges)
    requires IsGraph(edges)
    ensures IsClosed(edges) <==> UnreachedShareNothing(edges)
  {
    if UnreachedShareNothing(edges) {
      forall p, e | IsProduction(edges, p) && Declares(edges, p, e) && !e.1 ensures IsProduction(edges, e.0) {
        if Reaches(edges, p, false) {
          ReachedKeepsItsModule(edges, p, e);
        } else {
          assert Unreached(edges, p);
        }
      }
    } else {
      var p, e :| Unreached(edges, p) && Declares(edges, p, e) && !e.1
        && Reaches(edges, e.0, true) && !Reaches(edges, e.0, false);
      assert IsProduction(edges, p) && !IsProduction(edges, e.0);
    }
  }

  // ---------------------------------------------------------------- graphs without cycles

  // A way along one declaration or more.
  ghost predicate Leads(edges: Edges, from: Path, to: Path)
  {
    exists walk :: walk != [] && IsWalk(edges, from, walk, to)
  }

  ghost predicate IsAcyclic(edges: Edges) { forall p :: !Leads(edges, p, p) }

  lemma {:induction false} LinkInFront(edges: Edges, first: Link, walk: seq<Link>, to: Path)
    requires Declares(edges, first.source, (first.target, first.conditional)) && IsWalk(edges, first.target, walk, to)
    ensures IsWalk(edges, first.source, [first] + walk, to)
    decreases |walk|
  {
    var longer := [first] + walk;
    if walk == [] {
      assert longer == [first] && longer[..0] == [];
    } else {
      LinkInFront(edges, first, walk[..|walk| - 1], walk[|walk| - 1].source);
      assert longer[..|longer| - 1] == [first] + walk[..|walk| - 1];
    }
  }

  lemma DeclarerLeads(edges: Edges, p: Path, e: (Path, bool), to: Path)
    requires Declares(edges, p, e) && (to == e.0 || Leads(edges, e.0, to))
    ensures Leads(edges, p, to)
  {
    var walk := [];
    if to != e.0 {
      walk :| walk != [] && IsWalk(edges, e.0, walk, to);
    }
    LinkInFront(edges, Link(p, e.0, e.1), walk, to);
  }

  // Going back from declared file to declaring file ends at a root, unless it comes around.
  lemma {:induction false} AncestorIsRoot(edges: Edges, p: Path, seen: set<Path>)
    requires IsGraph(edges) && IsAcyclic(edges) && p in edges && seen <= edges.Keys
    requires forall s <- seen :: Leads(edges, p, s)
    ensures !Unreached(edges, p)
    decreases edges.Keys - seen
  {
    assert p !in seen;
    if IsRoot(edges, p) {
      RootIsReached(edges, p);
    } else {
      var q, e :| q in edges && e in edges[q] && e.0 == p;
      forall s <- seen + {p} ensures Leads(edges, q, s) {
        DeclarerLeads(edges, q, e, s);
      }
      AncestorIsRoot(edges, q, seen + {p});
      var testOnly: bool :| Reaches(edges, q, testOnly);
      StepIsReached(edges, q, testOnly, e);
    }
  }

  // Without a cycle of declarations roots reach every file, so the kept files are closed.
  lemma AcyclicIsClosed(edges: Edges)
    requires IsGraph(edges) && IsAcyclic(edges)
    ensures (forall p :: !Unreached(edges, p)) && IsClosed(edges)
  {
    forall p ensures !Unreached(edges, p) {
      if p in edges {
        AncestorIsRoot(edges, p, {});
      }
    }
    ProductionIsClosedExactly(edges);
  }

  // "r" declares "e" test-only; "p" and "q" declare each other, so they are no roots, and "p"
  // declares "e" unconditionally.
  const STRANDED: Edges :=
    map["r" := [("e", true)], "p" := [("q", false), ("e", false)], "q" := [("p", false)], "e" := []]

  lemma StrandedRoots()
    ensures IsGraph(STRANDED) && forall root :: IsRoot(STRANDED, root) <==> root == "r"
  {
    assert Declares(STRANDED, "p", ("q", false)) && Declares(STRANDED, "p", ("e", false))
        && Declares(STRANDED, "q", ("p", false));
    assert STRANDED["p"][0] == ("q", false) && STRANDED["p"][1] == ("e", false) && STRANDED["q"][0] == ("p", false);
    forall root | IsRoot(STRANDED, root) ensures root == "r" {
      assert ("q", false) in STRANDED["p"] && ("e", false) in STRANDED["p"] && ("p", false) in STRANDED["q"];
    }
  }

  lemma StrandedDeclarations()
    ensures forall e :: Declares(STRANDED, "r", e) <==> e == ("e", true)
    ensures forall e :: !Declares(STRANDED, "e", e)
    ensures Declares(STRANDED, "p", ("e", false))
  {
    assert STRANDED["r"][0] == ("e", true) && STRANDED["p"][1] == ("e", false);
  }

  lemma StrandedReachable(reachable: set<(Path, bool)>)
    requires reachable == {("r", false), ("e", true)}
    ensures forall p, testOnly :: (p, testOnly) in reachable <==> Reaches(STRANDED, p, testOnly)
  {
    StrandedRoots();
    StrandedDeclarations();
    RootIsReached(STRANDED, "r");
    StepIsReached(STRANDED, "r", false, ("e", true));
    forall x <- reachable, e | Declares(STRANDED, x.0, e) ensures Known(reachable, [], (e.0, x.1 || e.1)) {
      assert x == ("r", false) || x == ("e", true);
    }
    ClosedIsExact(STRANDED, reachable);
  }

  // The kept file "p" declares "e" unconditionally, and "e" is dropped.
  lemma KeptFileLosesItsModule()
    ensures IsProduction(STRANDED, "p") && Declares(STRANDED, "p", ("e", false)) && !IsProduction(STRANDED, "e")
    ensures !IsClosed(STRANDED)
  {
    StrandedDeclarations();
    var reachable := {("r", false), ("e", true)};
    StrandedReachable(reachable);
    assert ("p", true) !in reachable && ("e", true) in reachable && ("e", false) !in reachable;
  }
}
