/** Values shared by the two binder registries: optional results, classes with their
    single-superclass chain, items, and binders. */
module Common {

  /** A possibly absent value; `None` stands for Java's `null`. */
  datatype Option<+T> = None | Some(value: T)

  /** A Java class, named by a number. */
  type ClassId = nat

  /** The superclass relation that `Class.getSuperclass()` walks: every class has at most one
      superclass, and a class without one (`java.lang.Object`) simply has no entry. Only
      superclasses are recorded, never implemented interfaces. `depth` is the number of
      superclasses above a class; it witnesses that the walk always ends. */
  datatype Hierarchy = Hierarchy(superclass: map<ClassId, ClassId>, depth: map<ClassId, nat>) {

    ghost predicate Valid() {
      forall c :: c in superclass ==>
        c in depth && superclass[c] in depth && depth[superclass[c]] < depth[c]
    }

    /** `getSuperclass()`: `None` for a class at the top of the hierarchy. */
    function SuperclassOf(c: ClassId): Option<ClassId> {
      if c in superclass then Some(superclass[c]) else None
    }

    function Rank(c: ClassId): nat {
      if c in depth then depth[c] else 0
    }
  }

  /** `chain` starts at `c`, each next entry is the superclass of the previous one, and it
      stops at a class without a superclass. */
  ghost predicate IsSuperclassChain(h: Hierarchy, c: ClassId, chain: seq<ClassId>) {
    && |chain| >= 1
    && chain[0] == c
    && (forall i :: 0 <= i < |chain| - 1 ==> chain[i] in h.superclass && chain[i + 1] == h.superclass[chain[i]])
    && chain[|chain| - 1] !in h.superclass
  }

  /** The classes a lookup for an item of class `c` visits, most-derived first. */
  function Ancestry(h: Hierarchy, c: ClassId): (chain: seq<ClassId>)
    requires h.Valid()
    ensures IsSuperclassChain(h, c, chain)
    decreases h.Rank(c)
  {
    if c in h.superclass then [c] + Ancestry(h, h.superclass[c]) else [c]
  }

  /** The chain is determined by the hierarchy: any superclass chain from `c` is `Ancestry(h, c)`. */
  lemma {:induction false} SuperclassChainIsUnique(h: Hierarchy, c: ClassId, chain: seq<ClassId>)
    requires h.Valid()
    requires IsSuperclassChain(h, c, chain)
    ensures chain == Ancestry(h, c)
    decreases h.Rank(c)
  {
    if c in h.superclass {
      assert |chain| >= 2;
      var rest := chain[1..];
      assert IsSuperclassChain(h, h.superclass[c], rest) by {
        forall i | 0 <= i < |rest| - 1
          ensures rest[i] in h.superclass && rest[i + 1] == h.superclass[rest[i]]
        {
          assert rest[i] == chain[i + 1] && rest[i + 1] == chain[i + 2];
        }
      }
      SuperclassChainIsUnique(h, h.superclass[c], rest);
      assert chain == [c] + rest;
    }
  }

  /** An item handed to a mapper: its runtime class and an opaque payload that rule
      predicates may inspect. */
  datatype Item = Item(cls: ClassId, payload: int)

  /** A binder, compared by identity. `Overridden` is the wrapper that replaces the inner
      binder's view construction by inflating `layout` and delegates binding to `inner`. */
  datatype Binder = Base(id: nat) | Overridden(inner: Binder, layout: int)
}
