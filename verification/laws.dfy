/** The category laws that composition of morphisms obeys: every object has
    an identity morphism, and composition is associative. Both follow from
    `Compose` applying the first map and then the second.
 */
module CategoryLaws {
  import opened Morphisms

  /** The identity morphism of object `a`. */
  function Id<A>(a: A): Morphism<A, A> {
    Morphism(a, a, x => x)
  }

  /** The composite g∘f as a morphism of its own: from f's domain to g's
      codomain, evaluating like `Compose`. */
  function Then<A, B, C>(f: Morphism<A, B>, g: Morphism<B, C>): Morphism<A, C> {
    Morphism(f.dom, g.cod, x => g.Map(f.Map(x)))
  }

  /** Associativity on values: applying h after composing f and g equals
      composing g and h on f's image. */
  lemma ComposeAssociative<A, B, C, D>(d: A, f: Morphism<A, B>, g: Morphism<B, C>, h: Morphism<C, D>)
    ensures h.Map(Compose(d, f, g)) == Compose(f.Map(d), g, h)
    ensures Compose(d, Then(f, g), h) == Compose(d, f, Then(g, h))
  {
  }

  /** Identity on values, on either side. */
  lemma ComposeIdentity<A, B>(d: A, a: A, b: B, f: Morphism<A, B>)
    ensures Compose(d, Id(a), f) == f.Map(d)
    ensures Compose(d, f, Id(b)) == f.Map(d)
  {
  }

  /** Associativity of composite morphisms: (h∘g)∘f and h∘(g∘f) agree
      everywhere and pass the equality check. */
  lemma ThenAssociative<A(!new), B, C, D>(f: Morphism<A, B>, g: Morphism<B, C>, h: Morphism<C, D>)
    ensures Agree(Then(Then(f, g), h), Then(f, Then(g, h)))
    ensures CheckEqMorphisms(Then(Then(f, g), h), Then(f, Then(g, h)))
  {
  }

  /** Identity of composite morphisms: f∘id and id∘f agree with f, given that
      the identities sit at f's endpoints. */
  lemma ThenIdentity<A(!new), B>(f: Morphism<A, B>)
    ensures Agree(Then(Id(f.dom), f), f)
    ensures Agree(Then(f, Id(f.cod)), f)
    ensures CheckEqMorphisms(Then(Id(f.dom), f), f)
    ensures CheckEqMorphisms(Then(f, Id(f.cod)), f)
  {
  }

  /** Composites of morphisms that agree everywhere agree everywhere. */
  lemma ThenRespectsAgree<A(!new), B(!new), C>(f: Morphism<A, B>, f': Morphism<A, B>,
                                               g: Morphism<B, C>, g': Morphism<B, C>)
    requires Agree(f, f') && Agree(g, g')
    ensures Agree(Then(f, g), Then(f', g'))
  {
  }

  /** Composing afterwards preserves the check: if f and g pass it, so do
      h∘f and h∘g, since both probe h at the shared image of the domain. */
  lemma ThenAfterRespectsCheckEq<A, B, C>(f: Morphism<A, B>, g: Morphism<A, B>, h: Morphism<B, C>)
    requires CheckEqMorphisms(f, g)
    ensures CheckEqMorphisms(Then(f, h), Then(g, h))
  {
  }

  /** Composing in front does not preserve the check: g and g'
      agree at their shared domain 1, but f sends its domain to 5, where
      they differ. */
  lemma ThenIgnoresCheckEq()
    ensures var f := Morphism(0, 1, (x: int) => 5);
            var g := Morphism(1, 2, (x: int) => x);
            var g' := Morphism(1, 2, (x: int) => 1);
            CheckEqMorphisms(g, g') && !CheckEqMorphisms(Then(f, g), Then(f, g'))
  {
  }

  // ---------------------------------------------------------------------------
  // Chains of endomorphisms

  /** Applies the morphisms of `ms` to `d` from first to last: an n-fold
      `Compose`, as `ChainOfTwo` and `ChainThenCompose` show. */
  function ComposeChain<O>(d: O, ms: seq<Morphism<O, O>>): O
    decreases |ms|
  {
    if |ms| == 0 then d else ComposeChain(ms[0].Map(d), ms[1..])
  }

  /** A chain of two is one `Compose`. */
  lemma ChainOfTwo<O>(d: O, f: Morphism<O, O>, g: Morphism<O, O>)
    ensures ComposeChain(d, [f, g]) == Compose(d, f, g)
  {
    assert [f, g][1..] == [g];
    assert [g][1..] == [];
    assert ComposeChain(d, [f, g]) == ComposeChain(f.Map(d), [g]);
    assert ComposeChain(f.Map(d), [g]) == ComposeChain(g.Map(f.Map(d)), []);
  }

  /** Generalised associativity: a chain may be split anywhere and its two
      halves composed in turn, so every bracketing gives the same value. */
  lemma {:induction false} ChainConcat<O>(d: O, a: seq<Morphism<O, O>>, b: seq<Morphism<O, O>>)
    ensures ComposeChain(d, a + b) == ComposeChain(ComposeChain(d, a), b)
    decreases |a|
  {
    if |a| == 0 {
      assert a + b == b;
    } else {
      assert (a + b)[0] == a[0];
      assert (a + b)[1..] == a[1..] + b;
      ChainConcat(a[0].Map(d), a[1..], b);
    }
  }

  /** Extending a chain by two morphisms is one `Compose` applied to the
      chain's value, at every chain length. */
  lemma {:induction false} ChainThenCompose<O>(d: O, ms: seq<Morphism<O, O>>, f: Morphism<O, O>, g: Morphism<O, O>)
    ensures ComposeChain(d, ms + [f, g]) == Compose(ComposeChain(d, ms), f, g)
  {
    ChainConcat(d, ms, [f, g]);
    ChainOfTwo(ComposeChain(d, ms), f, g);
  }

  /** An identity morphism anywhere in a chain changes nothing. */
  lemma {:induction false} ChainIdentity<O>(d: O, a: seq<Morphism<O, O>>, x: O, b: seq<Morphism<O, O>>)
    ensures ComposeChain(d, a + [Id(x)] + b) == ComposeChain(d, a + b)
  {
    ChainConcat(d, a + [Id(x)], b);
    ChainConcat(d, a, [Id(x)]);
    ChainConcat(d, a, b);
    var e := ComposeChain(d, a);
    assert [Id(x)][1..] == [];
    assert ComposeChain(e, [Id(x)]) == ComposeChain(Id(x).Map(e), []);
  }
}
