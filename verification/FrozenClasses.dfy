/** The frozen-class closure of the mutability sweep: which declared classes reach a
    frozen seed through their bases. */
module FrozenClasses {
  import opened Prelude

  /** A class definition as the sweep sees it: its name, the names of its bases, and
      whether it declares `frozen=True` itself. */
  datatype ClassDef = ClassDef(name: string, bases: set<string>, declaresFrozen: bool)

  const FROZEN_BASE := "Frozen"

  ghost predicate Declared(classes: seq<ClassDef>, name: string) {
    exists i :: 0 <= i < |classes| && classes[i].name == name
  }

  /** Some definition of `name` lists `base`. */
  ghost predicate Extends(classes: seq<ClassDef>, name: string, base: string) {
    exists i :: 0 <= i < |classes| && classes[i].name == name && base in classes[i].bases
  }

  ghost predicate Seed(classes: seq<ClassDef>, name: string) {
    exists i :: 0 <= i < |classes| && classes[i].name == name
                && ("Frozen" in classes[i].bases || classes[i].declaresFrozen)
  }

  /** A chain of base-name edges from the first name to a seed. */
  ghost predicate Chain(classes: seq<ClassDef>, path: seq<string>) {
    && path != []
    && Seed(classes, path[|path| - 1])
    && forall i :: 0 <= i < |path| - 1 ==> Extends(classes, path[i], path[i + 1])
  }

  ghost predicate ReachesSeed(classes: seq<ClassDef>, name: string) {
    exists path :: Chain(classes, path) && path[0] == name
  }

  ghost predicate AllReach(classes: seq<ClassDef>, names: set<string>) {
    forall n :: n in names ==> ReachesSeed(classes, n)
  }

  lemma SeedReaches(classes: seq<ClassDef>, name: string)
    requires Seed(classes, name)
    ensures ReachesSeed(classes, name)
  {
    assert Chain(classes, [name]) && [name][0] == name;
  }

  lemma {:induction false} ExtendReaches(classes: seq<ClassDef>, name: string, base: string)
    requires Extends(classes, name, base) && ReachesSeed(classes, base)
    ensures ReachesSeed(classes, name)
  {
    var path :| Chain(classes, path) && path[0] == base;
    var longer := [name] + path;
    forall i | 0 <= i < |longer| - 1 ensures Extends(classes, longer[i], longer[i + 1]) {
      if i > 0 {
        assert Extends(classes, path[i - 1], path[i]);
      }
    }
    assert Chain(classes, longer) && longer[0] == name;
  }

  /** A set that holds every seed and is closed under base edges holds every name with
      a chain to a seed. */
  lemma {:induction false} ClosedHoldsChain(classes: seq<ClassDef>, frozen: set<string>, path: seq<string>)
    requires Chain(classes, path)
    requires forall n :: Seed(classes, n) ==> n in frozen
    requires forall n, b :: Extends(classes, n, b) && b in frozen ==> n in frozen
    ensures path[0] in frozen
  {
    if |path| > 1 {
      var rest := path[1..];
      forall i | 0 <= i < |rest| - 1 ensures Extends(classes, rest[i], rest[i + 1]) {
        assert Extends(classes, path[i + 1], path[i + 2]);
      }
      ClosedHoldsChain(classes, frozen, rest);
      assert Extends(classes, path[0], path[1]);
    }
  }

  /** A name that reaches a seed is declared. */
  lemma {:induction false} ReachingIsDeclared(classes: seq<ClassDef>, name: string)
    requires ReachesSeed(classes, name)
    ensures Declared(classes, name)
  {
    var path :| Chain(classes, path) && path[0] == name;
    if |path| > 1 {
      assert Extends(classes, path[0], path[1]);
    }
  }

  /** The first pass: bases of each name united over its definitions, and the seeds. */
  method Collect(classes: seq<ClassDef>) returns (bases: map<string, set<string>>, frozen: set<string>)
    ensures forall n :: n in bases <==> Declared(classes, n)
    ensures BasesOf(classes, bases)
    ensures forall n :: n in frozen <==> Seed(classes, n)
  {
    bases, frozen := map[], {};
    for k := 0 to |classes|
      invariant forall n :: n in bases <==> Declared(classes[..k], n)
      invariant BasesOf(classes[..k], bases)
      invariant forall n :: n in frozen <==> Seed(classes[..k], n)
    {
      var node := classes[k];
      OneMoreClass(classes, k);
      bases := bases[node.name := (if node.name in bases then bases[node.name] else {}) + node.bases];
      if FROZEN_BASE in node.bases || node.declaresFrozen {
        frozen := frozen + {node.name};
      }
    }
    assert classes[..|classes|] == classes;
  }

  lemma {:induction false} OneMoreClass(classes: seq<ClassDef>, k: nat)
    requires k < |classes|
    ensures forall n :: Declared(classes[..k + 1], n) <==> Declared(classes[..k], n) || n == classes[k].name
    ensures forall n, b :: Extends(classes[..k + 1], n, b) <==>
              Extends(classes[..k], n, b) || (n == classes[k].name && b in classes[k].bases)
    ensures forall n :: Seed(classes[..k + 1], n) <==>
              Seed(classes[..k], n)
              || (n == classes[k].name && (FROZEN_BASE in classes[k].bases || classes[k].declaresFrozen))
  {
    var before, after := classes[..k], classes[..k + 1];
    assert after == before + [classes[k]];
    forall n ensures Declared(after, n) <==> Declared(before, n) || n == classes[k].name {
      if i :| 0 <= i < k && before[i].name == n {
        assert after[i] == before[i];
      } else {
        assert after[k] == classes[k];
      }
    }
    forall n, b
      ensures Extends(after, n, b) <==> Extends(before, n, b) || (n == classes[k].name && b in classes[k].bases)
    {
      if i :| 0 <= i < k && before[i].name == n && b in before[i].bases {
        assert after[i] == before[i];
      } else {
        assert after[k] == classes[k];
      }
    }
    forall n
      ensures Seed(after, n) <==>
              Seed(before, n)
              || (n == classes[k].name && (FROZEN_BASE in classes[k].bases || classes[k].declaresFrozen))
    {
      if i :| 0 <= i < k && before[i].name == n && (FROZEN_BASE in before[i].bases || before[i].declaresFrozen) {
        assert after[i] == before[i];
      } else {
        assert after[k] == classes[k];
      }
    }
  }

  /** Nothing outside `frozen` but in `bases` and not in `todo` extends a frozen name. */
  ghost predicate Settled(bases: map<string, set<string>>, frozen: set<string>, todo: set<string>) {
    forall n :: n in bases && n !in todo && n !in frozen ==> bases[n] * frozen == {}
  }

  ghost predicate BasesOf(classes: seq<ClassDef>, bases: map<string, set<string>>) {
    forall n, b :: n in bases && b in bases[n] <==> Extends(classes, n, b)
  }

  ghost predicate HoldsSeeds(classes: seq<ClassDef>, frozen: set<string>) {
    forall n :: Seed(classes, n) ==> n in frozen
  }

  lemma {:induction false} GrowReaches(
      classes: seq<ClassDef>, bases: map<string, set<string>>, frozen: set<string>, name: string)
    requires BasesOf(classes, bases) && AllReach(classes, frozen)
    requires name in bases && bases[name] * frozen != {}
    ensures AllReach(classes, frozen + {name})
  {
    var base :| base in bases[name] * frozen;
    assert Extends(classes, name, base);
    ExtendReaches(classes, name, base);
  }

  /** One sweep over the declared names, in any order. */
  method Sweep(ghost classes: seq<ClassDef>, bases: map<string, set<string>>, start: set<string>)
    returns (frozen: set<string>, changed: bool)
    requires BasesOf(classes, bases) && AllReach(classes, start) && start <= bases.Keys
    ensures AllReach(classes, frozen) && start <= frozen <= bases.Keys
    ensures changed <==> start != frozen
    ensures !changed ==> Settled(bases, frozen, {})
  {
    hide AllReach, BasesOf;
    frozen, changed := start, false;
    var todo := bases.Keys;
    while todo != {}
      invariant todo <= bases.Keys && start <= frozen <= bases.Keys
      invariant AllReach(classes, frozen)
      invariant changed <==> start != frozen
      invariant !changed ==> Settled(bases, frozen, todo)
      decreases |todo|
    {
      var name :| name in todo;
      todo := todo - {name};
      if name !in frozen && bases[name] * frozen != {} {
        GrowReaches(classes, bases, frozen, name);
        frozen := frozen + {name};
        changed := true;
      }
    }
  }

  /** Exactly the declared classes from which a seed is reachable, whatever the order
      in which the names are visited, and with cycles and repeated names allowed. */
  method FrozenClassNames(classes: seq<ClassDef>) returns (frozen: set<string>)
    ensures forall n :: n in frozen <==> ReachesSeed(classes, n)
    ensures forall n :: n in frozen ==> Declared(classes, n)
  {
    hide *;
    var bases;
    bases, frozen := Collect(classes);
    SeedsReach(classes, bases, frozen);
    var changed := true;
    while changed
      invariant AllReach(classes, frozen) && frozen <= bases.Keys
      invariant HoldsSeeds(classes, frozen)
      invariant !changed ==> Settled(bases, frozen, {})
      decreases |bases.Keys - frozen|, changed
    {
      ghost var start := frozen;
      frozen, changed := Sweep(classes, bases, frozen);
      StillHoldsSeeds(classes, start, frozen);
      if changed {
        Grew(bases.Keys, start, frozen);
      }
    }
    FixpointIsExact(classes, bases, frozen);
  }

  lemma SeedsReach(classes: seq<ClassDef>, bases: map<string, set<string>>, seeds: set<string>)
    requires forall n :: n in bases <==> Declared(classes, n)
    requires forall n :: n in seeds <==> Seed(classes, n)
    ensures AllReach(classes, seeds) && HoldsSeeds(classes, seeds) && seeds <= bases.Keys
  {
    forall n | n in seeds ensures ReachesSeed(classes, n) && Declared(classes, n) {
      SeedReaches(classes, n);
      ReachingIsDeclared(classes, n);
    }
  }

  lemma StillHoldsSeeds(classes: seq<ClassDef>, before: set<string>, after: set<string>)
    requires HoldsSeeds(classes, before) && before <= after
    ensures HoldsSeeds(classes, after)
  {
  }

  lemma Grew(all: set<string>, before: set<string>, after: set<string>)
    requires before < after <= all
    ensures |all - after| < |all - before|
  {
    var x :| x in after && x !in before;
    assert all - after <= (all - before) - {x};
    assert |(all - before) - {x}| == |all - before| - 1;
    SubsetCardinality(all - after, (all - before) - {x});
  }

  lemma {:induction false} FixpointIsExact(
      classes: seq<ClassDef>, bases: map<string, set<string>>, frozen: set<string>)
    requires BasesOf(classes, bases) && HoldsSeeds(classes, frozen) && AllReach(classes, frozen)
    requires Settled(bases, frozen, {})
    ensures forall n :: n in frozen <==> ReachesSeed(classes, n)
    ensures forall n :: n in frozen ==> Declared(classes, n)
  {
    forall n, b | Extends(classes, n, b) && b in frozen ensures n in frozen {
      assert n in bases && b in bases[n];
      assert bases[n] * frozen != {} by {
        assert b in bases[n] * frozen;
      }
    }
    forall n | ReachesSeed(classes, n) ensures n in frozen && Declared(classes, n) {
      var path :| Chain(classes, path) && path[0] == n;
      ClosedHoldsChain(classes, frozen, path);
      ReachingIsDeclared(classes, n);
    }
  }
}
