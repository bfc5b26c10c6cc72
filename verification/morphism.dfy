/** Morphisms between category objects, their extensional equality check and
    their composition.

    An object type is any Dafny type with equality (the `(==)` characteristic):
    objects are compared structurally and carry no identity beyond that. A
    morphism is a plain value holding its domain object, its codomain object and
    a pure total map from domain values to codomain values. Arrow types have no
    equality in Dafny, so morphisms are never compared with `==`; they are
    compared through `CheckEqMorphisms` or the ghost predicate `Agree`.
 */
module Morphisms {

  /** A morphism `dom -> cod` with its mapping behaviour `apply`. */
  datatype Morphism<!A, B> = Morphism(dom: A, cod: B, apply: A -> B) {

    /** The image of a domain value under this morphism. */
    function Map(x: A): B {
      apply(x)
    }
  }

  /** A collection of morphisms from A to B: ordered, duplicates allowed. */
  type HomSet<!A, B> = seq<Morphism<A, B>>

  /** Everything the equality check looks at: the two endpoints and the image
      of the morphism's own domain. */
  function Observation<A, B>(m: Morphism<A, B>): (A, B, B) {
    (m.dom, m.cod, m.Map(m.dom))
  }

  /** Two morphisms are equal when they share the domain, share the codomain
      and send their own domains to equal values. */
  function CheckEqMorphisms<A(==), B(==)>(first: Morphism<A, B>, second: Morphism<A, B>): bool {
    && first.dom == second.dom
    && first.cod == second.cod
    && first.Map(first.dom) == second.Map(second.dom)
  }

  /** Apply `first` and then `second` to a starting value. The endpoints of
      the two morphisms are not consulted. */
  function Compose<A, B, C>(d: A, first: Morphism<A, B>, second: Morphism<B, C>): C {
    second.Map(first.Map(d))
  }

  /** Full extensional equality: same endpoints and the same image everywhere. */
  ghost predicate Agree<A(!new), B>(f: Morphism<A, B>, g: Morphism<A, B>) {
    && f.dom == g.dom
    && f.cod == g.cod
    && forall x :: f.Map(x) == g.Map(x)
  }

  /** Every morphism from a to b in `hs` starts at `a` and ends at `b`. */
  ghost predicate IsHomSet<A, B>(hs: HomSet<A, B>, a: A, b: B) {
    forall k :: 0 <= k < |hs| ==> hs[k].dom == a && hs[k].cod == b
  }

  // ---------------------------------------------------------------------------
  // Laws of the equality check

  /** The check is equality of observations; this is why it is an
      equivalence relation on morphisms. */
  lemma CheckEqIsObservationEquality<A, B>(f: Morphism<A, B>, g: Morphism<A, B>)
    ensures CheckEqMorphisms(f, g) <==> Observation(f) == Observation(g)
  {
  }

  lemma CheckEqReflexive<A, B>(f: Morphism<A, B>)
    ensures CheckEqMorphisms(f, f)
  {
  }

  lemma CheckEqSymmetric<A, B>(f: Morphism<A, B>, g: Morphism<A, B>)
    ensures CheckEqMorphisms(f, g) == CheckEqMorphisms(g, f)
  {
  }

  lemma CheckEqTransitive<A, B>(f: Morphism<A, B>, g: Morphism<A, B>, h: Morphism<A, B>)
    requires CheckEqMorphisms(f, g) && CheckEqMorphisms(g, h)
    ensures CheckEqMorphisms(f, h)
  {
  }

  /** The three laws together, stated of the check as a relation. */
  lemma CheckEqIsEquivalence<A, B>()
    ensures forall f: Morphism<A, B> :: CheckEqMorphisms(f, f)
    ensures forall f: Morphism<A, B>, g: Morphism<A, B> ::
              CheckEqMorphisms(f, g) ==> CheckEqMorphisms(g, f)
    ensures forall f: Morphism<A, B>, g: Morphism<A, B>, h: Morphism<A, B> ::
              CheckEqMorphisms(f, g) && CheckEqMorphisms(g, h) ==> CheckEqMorphisms(f, h)
  {
    forall f: Morphism<A, B>, g: Morphism<A, B>, h: Morphism<A, B>
      | CheckEqMorphisms(f, g) && CheckEqMorphisms(g, h)
      ensures CheckEqMorphisms(f, h)
    {
      CheckEqTransitive(f, g, h);
    }
  }

  /** Different endpoints make the check fail whatever the maps do. */
  lemma CheckEqNeedsSameEndpoints<A, B>(f: Morphism<A, B>, g: Morphism<A, B>)
    requires f.dom != g.dom || f.cod != g.cod
    ensures !CheckEqMorphisms(f, g)
  {
  }

  /** Compose never consults the endpoints: morphisms with the same maps but
      other domains or codomains compose to the same value. */
  lemma ComposeIgnoresEndpoints<A, B, C>(d: A, first: Morphism<A, B>, second: Morphism<B, C>,
                                         a': A, b1: B, b2: B, c': C)
    ensures Compose(d, first, second)
            == Compose(d, Morphism(a', b1, first.apply), Morphism(b2, c', second.apply))
  {
  }

  /** Full extensional agreement implies the check; the converse fails
      (see `CheckEqIsSinglePoint`). */
  lemma AgreeImpliesCheckEq<A(!new), B>(f: Morphism<A, B>, g: Morphism<A, B>)
    requires Agree(f, g)
    ensures CheckEqMorphisms(f, g)
  {
  }

  /** The check probes the maps only at the morphism's own domain: two
      morphisms that differ at another point still pass it. */
  lemma CheckEqIsSinglePoint()
    ensures var f := Morphism(0, 0, (x: int) => 0);
            var g := Morphism(0, 0, (x: int) => x);
            CheckEqMorphisms(f, g) && f.Map(1) != g.Map(1)
  {
  }

  /** Inside one hom-set the endpoints always match, so the check reduces to
      comparing the images of the shared domain. */
  lemma CheckEqInHomSet<A, B>(hs: HomSet<A, B>, a: A, b: B, k: nat, l: nat)
    requires IsHomSet(hs, a, b)
    requires k < |hs| && l < |hs|
    ensures CheckEqMorphisms(hs[k], hs[l]) <==> hs[k].Map(a) == hs[l].Map(a)
  {
  }

  /** Two morphisms Point -> Line: equal to itself, unequal to one that draws
      another line. */
  lemma PointLineScenario()
    ensures var f := Morphism("Point", "Line", (x: string) => "Line");
            var g := Morphism("Point", "Line", (x: string) => "OtherLine");
            CheckEqMorphisms(f, f) && !CheckEqMorphisms(f, g)
  {
  }

  /** Composing a -> b with b -> c yields c exactly. */
  lemma ComposeScenario()
    ensures var f := Morphism("a", "b", (x: string) => if x == "a" then "b" else x);
            var g := Morphism("b", "c", (x: string) => if x == "b" then "c" else x);
            Compose("a", f, g) == "c"
  {
  }
}
