/**
 HTTP verbs of a route class and all its resolvable bases. The class graph may be cyclic: the recursion
 cuts a branch when it meets a class of its own branch again, and remembers resolved imports on the way.
 */
module InheritedMethods {
  import opened Wrappers

  type Name(==, !new)
  type Verb(==, !new)

  /** A top-level class of a module; also a name as a module refers to it. */
  datatype ClassId = ClassId(home: Name, name: Name)

  /** The verbs a class implements itself and its bases, `None` for one that is not a plain name. */
  datatype ClassDef = ClassDef(own: set<Verb>, bases: seq<Option<Name>>)

  /** The parsed tree: its classes, and for each module the module each imported name comes from. */
  datatype Tree = Tree(classes: map<ClassId, ClassDef>, imports: map<ClassId, Name>)

  /** `_resolve_base_class`, apart from its memory. */
  function Resolve(t: Tree, home: Name, name: Name): (r: Option<ClassId>)
    ensures r.Some? ==> r.value in t.classes
  {
    if ClassId(home, name) in t.classes then Some(ClassId(home, name))
    else if ClassId(home, name) !in t.imports then None
    else
      var there := ClassId(t.imports[ClassId(home, name)], name);
      if there in t.classes then Some(there) else None
  }

  function BaseAt(t: Tree, c: ClassId, i: nat): (r: Option<ClassId>)
    requires c in t.classes && i < |t.classes[c].bases|
    ensures r.Some? ==> r.value in t.classes
  {
    var base := t.classes[c].bases[i];
    if base.None? then None else Resolve(t, c.home, base.value)
  }

  /** What a name means in a module: its own class of that name, else the one in the module it imports the name from. */
  predicate RefersTo(t: Tree, home: Name, name: Name, d: ClassId) {
    && d in t.classes && d.name == name
    && (d.home == home
        || (ClassId(home, name) !in t.classes && ClassId(home, name) in t.imports
            && t.imports[ClassId(home, name)] == d.home))
  }

  lemma {:induction false} ResolveMeans(t: Tree, home: Name, name: Name, d: ClassId)
    ensures Resolve(t, home, name) == Some(d) <==> RefersTo(t, home, name, d)
  {
    assert d == ClassId(d.home, d.name);
  }

  /** One of the plain names that `c` lists as bases means `d` in the module of `c`. */
  ghost predicate IsBase(t: Tree, c: ClassId, d: ClassId) {
    c in t.classes && exists i | 0 <= i < |t.classes[c].bases| :: Names(t, c, i, d)
  }

  predicate Names(t: Tree, c: ClassId, i: nat, d: ClassId)
    requires c in t.classes && i < |t.classes[c].bases|
  {
    t.classes[c].bases[i].Some? && RefersTo(t, c.home, t.classes[c].bases[i].value, d)
  }

  lemma {:induction false} BaseAtMeans(t: Tree, c: ClassId, i: nat, d: ClassId)
    requires c in t.classes && i < |t.classes[c].bases|
    ensures BaseAt(t, c, i) == Some(d) <==> Names(t, c, i, d)
  {
    if t.classes[c].bases[i].Some? {
      ResolveMeans(t, c.home, t.classes[c].bases[i].value, d);
    }
  }

  /** A chain of bases. */
  ghost predicate IsPath(t: Tree, p: seq<ClassId>) {
    && p != [] && (forall i | 0 <= i < |p| :: p[i] in t.classes)
    && forall i | 0 < i < |p| :: IsBase(t, p[i - 1], p[i])
  }

  ghost predicate Leads(t: Tree, p: seq<ClassId>, c: ClassId, d: ClassId) {
    IsPath(t, p) && p[0] == c && p[|p| - 1] == d
  }

  /** Some class reachable from `c` implements the verb. */
  ghost predicate Inherits(t: Tree, c: ClassId, v: Verb) {
    exists p, d ::
      Leads(t, p, c, d) && v in t.classes[d].own
  }

  // ---------------------------------------------------------------- the recursion

  lemma {:induction false} StackLeavesLess(t: Tree, c: ClassId, stack: set<ClassId>)
    requires c in t.classes && c !in stack
    ensures |t.classes.Keys - (stack + {c})| < |t.classes.Keys - stack|
  {
    var before, after := t.classes.Keys - stack, t.classes.Keys - (stack + {c});
    assert before == after + {c};
  }

  /** What the recursion collects from a class, given the classes of its branch. */
  ghost function Collected(t: Tree, c: ClassId, stack: set<ClassId>): set<Verb>
    requires c in t.classes
    decreases |t.classes.Keys - stack|, 1, 0
  {
    if c in stack then t.classes[c].own
    else
      StackLeavesLess(t, c, stack);
      t.classes[c].own + FromBases(t, c, stack + {c}, |t.classes[c].bases|)
  }

  ghost function FromBases(t: Tree, c: ClassId, stack: set<ClassId>, n: nat): set<Verb>
    requires c in t.classes && n <= |t.classes[c].bases|
    decreases |t.classes.Keys - stack|, 2, n
  {
    if n == 0 then {}
    else FromBases(t, c, stack, n - 1) + FromBase(t, c, stack, n - 1)
  }

  ghost function FromBase(t: Tree, c: ClassId, stack: set<ClassId>, i: nat): set<Verb>
    requires c in t.classes && i < |t.classes[c].bases|
    decreases |t.classes.Keys - stack|, 2, 0
  {
    match BaseAt(t, c, i)
    case None => {}
    case Some(d) => Collected(t, d, stack)
  }

  // ---------------------------------------------------------------- sound

  lemma {:induction false} OwnIsInherited(t: Tree, c: ClassId, v: Verb)
    requires c in t.classes && v in t.classes[c].own
    ensures Inherits(t, c, v)
  {
    assert Leads(t, [c], c, c);
  }

  lemma {:induction false} BaseIsInherited(t: Tree, c: ClassId, d: ClassId, v: Verb)
    requires IsBase(t, c, d) && Inherits(t, d, v)
    ensures Inherits(t, c, v)
  {
    var p, e :| Leads(t, p, d, e) && v in t.classes[e].own;
    var longer := [c] + p;
    forall i | 0 < i < |longer| ensures IsBase(t, longer[i - 1], longer[i]) {
      if i > 1 {
        assert IsBase(t, p[i - 2], p[i - 1]);
      }
    }
    assert Leads(t, longer, c, e);
  }

  lemma {:induction false} CollectedIsInherited(t: Tree, c: ClassId, stack: set<ClassId>, v: Verb)
    requires c in t.classes && v in Collected(t, c, stack)
    ensures Inherits(t, c, v)
    decreases |t.classes.Keys - stack|, 1, 0
  {
    if v in t.classes[c].own {
      OwnIsInherited(t, c, v);
    } else {
      StackLeavesLess(t, c, stack);
      BasesAreInherited(t, c, stack + {c}, |t.classes[c].bases|, v);
    }
  }

  lemma {:induction false} BasesAreInherited(t: Tree, c: ClassId, stack: set<ClassId>, n: nat, v: Verb)
    requires c in t.classes && n <= |t.classes[c].bases| && v in FromBases(t, c, stack, n)
    ensures Inherits(t, c, v)
    decreases |t.classes.Keys - stack|, 2, n
  {
    if v in FromBase(t, c, stack, n - 1) {
      var d := BaseAt(t, c, n - 1).value;
      CollectedIsInherited(t, d, stack, v);
      BaseAtMeans(t, c, n - 1, d);
      BaseIsInherited(t, c, d, v);
    } else {
      BasesAreInherited(t, c, stack, n - 1, v);
    }
  }

  // ---------------------------------------------------------------- complete

  ghost predicate Simple(p: seq<ClassId>) {
    forall i, j | 0 <= i < j < |p| :: p[i] != p[j]
  }

  /** Going round a cycle can be left out. */
  lemma {:induction false} Shortened(t: Tree, p: seq<ClassId>, c: ClassId, d: ClassId) returns (q: seq<ClassId>)
    requires Leads(t, p, c, d)
    ensures Leads(t, q, c, d) && Simple(q)
    decreases |p|
  {
    q := p;
    if !Simple(p) {
      var i, j :| 0 <= i < j < |p| && p[i] == p[j];
      var cut := p[..i] + p[j..];
      forall k | 0 < k < |cut| ensures IsBase(t, cut[k - 1], cut[k]) {
        if k < i {
          assert IsBase(t, p[k - 1], p[k]);
        } else if k == i {
          assert IsBase(t, p[i - 1], p[i]);
        } else {
          assert IsBase(t, p[k - i + j - 1], p[k - i + j]);
        }
      }
      q := Shortened(t, cut, c, d);
    }
  }

  lemma {:induction false} FromBaseIsFromBases(t: Tree, c: ClassId, stack: set<ClassId>, n: nat, i: nat, v: Verb)
    requires c in t.classes && i < n <= |t.classes[c].bases| && v in FromBase(t, c, stack, i)
    ensures v in FromBases(t, c, stack, n)
  {
    if i < n - 1 {
      FromBaseIsFromBases(t, c, stack, n - 1, i, v);
    }
  }

  /** A simple chain that stays off the branch is followed to its end. */
  lemma {:induction false} SimplePathsAreFollowed(t: Tree, p: seq<ClassId>, stack: set<ClassId>, v: Verb)
    requires IsPath(t, p) && Simple(p) && (forall c | c in p :: c !in stack) && v in t.classes[p[|p| - 1]].own
    ensures v in Collected(t, p[0], stack)
    decreases |p|
  {
    if |p| > 1 {
      var c, tail := p[0], p[1..];
      assert IsBase(t, p[0], p[1]);
      var i :| 0 <= i < |t.classes[c].bases| && Names(t, c, i, p[1]);
      BaseAtMeans(t, c, i, p[1]);
      forall k | 0 < k < |tail| ensures IsBase(t, tail[k - 1], tail[k]) {
        assert IsBase(t, p[k], p[k + 1]);
      }
      SimplePathsAreFollowed(t, tail, stack + {c}, v);
      FromBaseIsFromBases(t, c, stack + {c}, |t.classes[c].bases|, i, v);
    }
  }

  /** On any class graph, cyclic or not, exactly the verbs of the reachable classes are collected. */
  lemma {:induction false} CollectsExactlyTheInherited(t: Tree, c: ClassId, v: Verb)
    requires c in t.classes
    ensures v in Collected(t, c, {}) <==> Inherits(t, c, v)
  {
    if v in Collected(t, c, {}) {
      CollectedIsInherited(t, c, {}, v);
    }
    if Inherits(t, c, v) {
      var p, d :| Leads(t, p, c, d) && v in t.classes[d].own;
      var q := Shortened(t, p, c, d);
      SimplePathsAreFollowed(t, q, {}, v);
    }
  }

  // ---------------------------------------------------------------- with memory

  class Extractor {
    const tree: Tree
    var registry: map<ClassId, ClassId>  // where an imported class was found, by providing module and name

    ghost predicate Valid()
      reads this
    {
      forall k | k in registry :: registry[k] == k && k in tree.classes
    }

    constructor (tree: Tree)
      ensures Valid() && this.tree == tree
    {
      this.tree, registry := tree, map[];
    }

    method ResolveBaseClass(home: Name, name: Name) returns (r: Option<ClassId>)
      requires Valid()
      modifies this
      ensures Valid() && r == Resolve(tree, home, name)
      ensures forall d :: r == Some(d) <==> RefersTo(tree, home, name, d)
    {
      forall d ensures Resolve(tree, home, name) == Some(d) <==> RefersTo(tree, home, name, d) {
        ResolveMeans(tree, home, name, d);
      }
      if ClassId(home, name) in tree.classes {
        return Some(ClassId(home, name));
      }
      if ClassId(home, name) !in tree.imports {
        return None;
      }
      var there := ClassId(tree.imports[ClassId(home, name)], name);
      if there in registry {
        return Some(registry[there]);
      }
      if there !in tree.classes {
        return None;
      }
      registry := registry[there := there];
      r := Some(there);
    }

    /** `_inherited_http_methods`. */
    method InheritedHttpMethods(c: ClassId, stack: set<ClassId>) returns (methods: set<Verb>)
      requires Valid() && c in tree.classes
      modifies this
      ensures Valid() && methods == Collected(tree, c, stack)
      ensures tree.classes[c].own <= methods
      ensures c in stack ==> methods == tree.classes[c].own
      decreases |tree.classes.Keys - stack|
    {
      methods := tree.classes[c].own;
      if c in stack {
        return;
      }
      StackLeavesLess(tree, c, stack);
      var bases := tree.classes[c].bases;
      for i := 0 to |bases|
        invariant Valid() && methods == tree.classes[c].own + FromBases(tree, c, stack + {c}, i)
      {
        if bases[i].Some? {
          var base := ResolveBaseClass(c.home, bases[i].value);
          if base.Some? {
            var inherited := InheritedHttpMethods(base.value, stack + {c});
            methods := methods + inherited;
          }
        }
      }
    }

    /** What a route class answers to. */
    method RouteMethods(c: ClassId) returns (methods: set<Verb>)
      requires Valid() && c in tree.classes
      modifies this
      ensures Valid() && forall v :: v in methods <==> Inherits(tree, c, v)
    {
      methods := InheritedHttpMethods(c, {});
      forall v ensures v in methods <==> Inherits(tree, c, v) {
        CollectsExactlyTheInherited(tree, c, v);
      }
    }
  }
}
