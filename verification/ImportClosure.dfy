/**
 The transitive import closure of an upstream source tree: a worklist over module names in which every
 module that is reached also brings in the packages around it.
 */
module ImportClosure {
  import opened Wrappers

  type Part(==, !new)

  /** A dotted name, part by part. */
  type Module = seq<Part>

  /** The modules a checkout can resolve, each with its imports, or `None` when it does not parse. */
  type Sources = map<Module, Option<seq<Module>>>

  /** `_ancestor_packages`, outermost first. */
  function Ancestors(name: Module): seq<Module> {
    if |name| <= 1 then [] else Ancestors(name[..|name| - 1]) + [name[..|name| - 1]]
  }

  /** The names a demand for `name` brings in, when they resolve. */
  function Candidates(name: Module): seq<Module> {
    [name] + Ancestors(name)
  }

  // ---------------------------------------------------------------- what a closure is

  /** The name itself or a package around it: a shorter, non-empty beginning of it. */
  ghost predicate IsOrHolds(c: Module, name: Module) {
    c == name || (1 <= |c| < |name| && c == name[..|c|])
  }

  /** Of a demanded name and its packages, all that resolve are in. */
  ghost predicate Covers(sources: Sources, closure: set<Module>, name: Module) {
    forall c | IsOrHolds(c, name) && c in sources :: c in closure
  }

  ghost predicate ImportsCovered(sources: Sources, closure: set<Module>, m: Module) {
    m in sources && sources[m].Some? ==> forall n | n in sources[m].value :: Covers(sources, closure, n)
  }

  /** Covers the initial imports and the imports of every member. */
  ghost predicate Closed(sources: Sources, initial: seq<Module>, closure: set<Module>) {
    && (forall n | n in initial :: Covers(sources, closure, n))
    && (forall m | m in closure :: ImportsCovered(sources, closure, m))
  }

  /** Every closed set contains `closure`. */
  ghost predicate BelowAllClosed(sources: Sources, initial: seq<Module>, closure: set<Module>) {
    forall s :: Closed(sources, initial, s) ==> closure <= s
  }

  /** Every closed set covers what is queued. */
  ghost predicate Demanded(sources: Sources, initial: seq<Module>, queue: seq<Module>) {
    forall s, n :: Closed(sources, initial, s) && n in queue ==> Covers(sources, s, n)
  }

  // ---------------------------------------------------------------- packages

  lemma {:induction false} AncestorIsPrefix(name: Module, a: Module)
    ensures a in Ancestors(name) <==> 1 <= |a| < |name| && a == name[..|a|]
  {
    if |name| > 1 {
      var front := name[..|name| - 1];
      AncestorIsPrefix(front, a);
      if 1 <= |a| < |front| {
        assert front[..|a|] == name[..|a|];
      }
      if |a| == |front| && a == name[..|a|] {
        assert a == front;
      }
    }
  }

  lemma {:induction false} CandidatesMean(name: Module, c: Module)
    ensures c in Candidates(name) <==> IsOrHolds(c, name)
  {
    AncestorIsPrefix(name, c);
  }

  /** The packages of a candidate are candidates too. */
  lemma {:induction false} CandidatesAreClosed(name: Module, c: Module, d: Module)
    requires IsOrHolds(c, name) && IsOrHolds(d, c)
    ensures IsOrHolds(d, name)
  {
    if c != name && d != c {
      assert name[..|c|][..|d|] == name[..|d|];
    }
  }

  lemma {:induction false} CoversMore(sources: Sources, small: set<Module>, large: set<Module>, n: Module)
    requires Covers(sources, small, n) && small <= large
    ensures Covers(sources, large, n)
  {
  }

  // ---------------------------------------------------------------- the worklist

  /** Every demand made so far is queued or met. */
  ghost predicate Accounted(sources: Sources, initial: seq<Module>, closure: set<Module>, queue: seq<Module>) {
    && (forall n | n in initial :: n in queue || Covers(sources, closure, n))
    && (forall m | m in closure :: ImportsAccounted(sources, closure, queue, m))
  }

  ghost predicate ImportsAccounted(sources: Sources, closure: set<Module>, queue: seq<Module>, m: Module) {
    && m in sources && sources[m].Some?
    && forall n | n in sources[m].value :: n in queue || Covers(sources, closure, n)
  }

  ghost predicate PackagesIn(sources: Sources, closure: set<Module>) {
    forall m | m in closure :: Covers(sources, closure, m)
  }

  /** What the loop keeps. */
  ghost predicate Working(sources: Sources, initial: seq<Module>, closure: set<Module>, queue: seq<Module>) {
    && Accounted(sources, initial, closure, queue) && PackagesIn(sources, closure)
    && BelowAllClosed(sources, initial, closure) && Demanded(sources, initial, queue)
  }

  /** Taking in one resolvable candidate of a demanded name. */
  lemma {:induction false} CandidateIsBelow(sources: Sources, initial: seq<Module>, closure: set<Module>,
                                            queue: seq<Module>,
                                            name: Module, c: Module)
    requires BelowAllClosed(sources, initial, closure) && Demanded(sources, initial, queue)
    requires forall s :: Closed(sources, initial, s) ==> Covers(sources, s, name)
    requires IsOrHolds(c, name) && c in sources && sources[c].Some?
    ensures BelowAllClosed(sources, initial, closure + {c}) && Demanded(sources, initial, queue + sources[c].value)
  {
    forall s | Closed(sources, initial, s) ensures closure + {c} <= s {
    }
    forall s, n | Closed(sources, initial, s) && n in queue + sources[c].value ensures Covers(sources, s, n) {
      if n !in queue {
        assert Covers(sources, s, name) && c in s;
        assert ImportsCovered(sources, s, c);
      }
    }
  }

  /** One demanded name: take in whatever of it and its packages resolves and is new; `None` if one does not parse. */
  method TakeIn(sources: Sources, ghost initial: seq<Module>, name: Module, closure: set<Module>, queue: seq<Module>)
    returns (grown: set<Module>, longer: seq<Module>, unparsed: Option<Module>)
    requires BelowAllClosed(sources, initial, closure) && Demanded(sources, initial, queue)
    requires forall s :: Closed(sources, initial, s) ==> Covers(sources, s, name)
    requires closure <= sources.Keys
    ensures closure <= grown <= sources.Keys && (forall n | n in queue :: n in longer)
    ensures grown == closure ==> longer == queue
    ensures BelowAllClosed(sources, initial, grown) && Demanded(sources, initial, longer)
    ensures forall m | m in grown && m !in closure ::
              IsOrHolds(m, name) && sources[m].Some? && forall n | n in sources[m].value :: n in longer
    ensures unparsed.None? ==> Covers(sources, grown, name)
    ensures unparsed.Some? ==>
              IsOrHolds(unparsed.value, name) && unparsed.value in sources && sources[unparsed.value].None?
  {
    grown, longer, unparsed := closure, queue, None;
    var candidates := Candidates(name);
    for k := 0 to |candidates|
      invariant closure <= grown <= sources.Keys && (forall n | n in queue :: n in longer)
      invariant grown == closure ==> longer == queue
      invariant BelowAllClosed(sources, initial, grown) && Demanded(sources, initial, longer)
      invariant forall m | m in grown && m !in closure ::
                  IsOrHolds(m, name) && sources[m].Some? && forall n | n in sources[m].value :: n in longer
      invariant forall j | 0 <= j < k && candidates[j] in sources :: candidates[j] in grown
    {
      var c := candidates[k];
      CandidatesMean(name, c);
      if c !in grown && c in sources {
        if sources[c].None? {
          unparsed := Some(c);
          return;
        }
        CandidateIsBelow(sources, initial, grown, longer, name, c);
        grown, longer := grown + {c}, longer + sources[c].value;
      }
    }
    if unparsed.None? {
      forall c | IsOrHolds(c, name) && c in sources ensures c in grown {
        CandidatesMean(name, c);
      }
    }
  }

  lemma {:induction false} TakenInWorks(sources: Sources, initial: seq<Module>, closure: set<Module>,
                                        queue: seq<Module>,
                                        name: Module, grown: set<Module>, longer: seq<Module>)
    requires Accounted(sources, initial, closure, queue + [name]) && PackagesIn(sources, closure)
    requires closure <= grown && (forall n | n in queue :: n in longer) && Covers(sources, grown, name)
    requires forall m | m in grown && m !in closure :: IsOrHolds(m, name) && m in sources && sources[m].Some?
                                                       && forall n | n in sources[m].value :: n in longer
    ensures Accounted(sources, initial, grown, longer) && PackagesIn(sources, grown)
  {
    forall n | n in initial && n !in longer ensures Covers(sources, grown, n) {
      if n != name {
        CoversMore(sources, closure, grown, n);
      }
    }
    forall m | m in grown ensures ImportsAccounted(sources, grown, longer, m) {
      if m in closure {
        assert ImportsAccounted(sources, closure, queue + [name], m);
        forall n | n in sources[m].value && n !in longer ensures Covers(sources, grown, n) {
          if n != name {
            CoversMore(sources, closure, grown, n);
          }
        }
      }
    }
    forall m | m in grown ensures Covers(sources, grown, m) {
      if m in closure {
        CoversMore(sources, closure, grown, m);
      } else {
        forall d | IsOrHolds(d, m) && d in sources ensures d in grown {
          CandidatesAreClosed(name, m, d);
        }
      }
    }
  }

  /**
   `_stock_modules`: exactly the least set that covers the initial imports and is closed under imports
   and surrounding packages; or some name that this set needs does not parse.
   */
  method StockModules(sources: Sources, initial: seq<Module>) returns (r: Result<set<Module>, Module>)
    ensures r.Ok? ==>
              && Closed(sources, initial, r.value) && PackagesIn(sources, r.value)
              && (forall s :: Closed(sources, initial, s) ==> r.value <= s)
              && r.value <= sources.Keys && forall m | m in r.value :: sources[m].Some?
    ensures r.Err? ==>
              && r.error in sources && sources[r.error].None?
              && forall s :: Closed(sources, initial, s) ==> r.error in s
  {
    var queue, closure: set<Module> := initial, {};
    while queue != []
      invariant Working(sources, initial, closure, queue) && closure <= sources.Keys
      invariant forall m | m in closure :: m in sources && sources[m].Some?
      decreases |sources.Keys - closure|, |queue|
    {
      var name, rest := queue[|queue| - 1], queue[..|queue| - 1];
      assert queue == rest + [name];
      Popped(sources, initial, closure, rest, name);
      if name in closure {
        queue := rest;
        continue;
      }
      var grown, longer, unparsed := TakeIn(sources, initial, name, closure, rest);
      if unparsed.Some? {
        return Err(unparsed.value);
      }
      TakenInWorks(sources, initial, closure, rest, name, grown, longer);
      Grows(sources, closure, grown);
      queue, closure := longer, grown;
    }
    r := Ok(closure);
  }

  /** A popped name is needed by every closed set; one already in needs nothing more. */
  lemma {:induction false} Popped(sources: Sources, initial: seq<Module>, closure: set<Module>, rest: seq<Module>,
                                  name: Module)
    requires Working(sources, initial, closure, rest + [name])
    ensures Demanded(sources, initial, rest)
    ensures forall s :: Closed(sources, initial, s) ==> Covers(sources, s, name)
    ensures name in closure ==> Working(sources, initial, closure, rest)
  {
    assert name in rest + [name];
    if name in closure {
      assert Covers(sources, closure, name);
      forall m | m in closure ensures ImportsAccounted(sources, closure, rest, m) {
        assert ImportsAccounted(sources, closure, rest + [name], m);
      }
    }
  }

  lemma {:induction false} Grows(sources: Sources, closure: set<Module>, grown: set<Module>)
    requires closure <= grown <= sources.Keys
    ensures |sources.Keys - grown| <= |sources.Keys - closure|
    ensures grown != closure ==> |sources.Keys - grown| < |sources.Keys - closure|
  {
    var before, after := sources.Keys - closure, sources.Keys - grown;
    assert before == after + (before - after);
    if grown != closure {
      var m :| m in grown && m !in closure;
      assert m in before - after;
    }
  }
}
