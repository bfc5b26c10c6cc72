# Categories: morphisms, composition and power objects

A Dafny model of a small Rust category-theory library. The library defines
what a category object is, what a morphism is, and the contract of a
generator for power objects. It has two pieces of executable logic. The
first is `check_eq_morphisms`, an equality test on morphisms. The second is
`compose`, which applies one morphism and then another to a value.

The model has three modules:

- `Morphisms` (`morphism.dfy`, from `src/morphism.rs`). A morphism is an
  immutable datatype `Morphism<A, B>` holding its domain object, its
  codomain object and a pure total map `apply: A -> B`. `Map` is the
  source's `map`. `HomSet<A, B>` is a sequence of morphisms. An object type
  is any type parameter with equality. Arrow types have no equality, so
  morphisms are only ever compared through `CheckEqMorphisms` or through
  the ghost predicate `Agree` (same endpoints and the same image
  everywhere).
- `CategoryLaws` (`laws.dfy`, from the crate documentation in
  `src/lib.rs`). It defines identity morphisms and the composite `g∘f` as a
  morphism of its own. It proves associativity and identity for `Compose`,
  for composite morphisms, and for chains of endomorphisms of any length.
  The documentation of `compose` (src/morphism.rs:40-44) promises "a new
  morphism" g∘f, but the code (src/morphism.rs:45-51) returns only the
  value of type C that g∘f gives the starting value. It never checks that
  the first codomain equals the second domain. `Compose` models the code,
  and `Then` models the morphism the documentation describes.
- `PowerObjects` (`object.dfy`, from `src/object.rs`). It defines the
  three-variant `PowerObjectType` request, whose indices are 64-bit
  `usize` values. A generator is a function parameter of the trait method's
  shape. Its documented promises are the predicate `Conforming(gen)`. This
  is an assumption about an implementation: the model states it and never
  proves it.

## Model

| member | source | states |
|---|---|---|
| Morphisms.CheckEqIsObservationEquality | src/morphism.rs:21-26 | the check holds exactly when the two morphisms have the same observation: the same domain, the same codomain and the same image of their own domain |
| Morphisms.CheckEqReflexive | src/morphism.rs:31-33 | every morphism passes the check against itself |
| Morphisms.CheckEqSymmetric | src/morphism.rs:31-33 | swapping the two arguments does not change the result |
| Morphisms.CheckEqTransitive | src/morphism.rs:31-33 | if f equals g and g equals h under the check, then f equals h |
| Morphisms.CheckEqIsEquivalence | src/morphism.rs:27-38 | the check, taken as a relation on all morphisms of one type, is reflexive, symmetric and transitive |
| Morphisms.CheckEqNeedsSameEndpoints | src/morphism.rs:31-32 | different domains or different codomains make the check false, whatever the maps do |
| Morphisms.AgreeImpliesCheckEq | src/morphism.rs:21-26 | morphisms with the same endpoints and the same image at every point pass the check |
| Morphisms.CheckEqIsSinglePoint | src/morphism.rs:33 | the check looks at one point only: two morphisms 0 -> 0 that differ at 1 still pass it |
| Morphisms.IsHomSet | src/morphism.rs:53-56 | a hom-set Hom(a, b): every member has domain a and codomain b; order and duplicates are unconstrained |
| Morphisms.CheckEqInHomSet | src/morphism.rs:53-56 | for two members of a hom-set from a to b, the check holds exactly when both send a to the same value |
| Morphisms.PointLineScenario | src/morphism.rs:27-38 | a morphism Point -> Line passes the check against itself and fails it against one whose map yields another line |
| Morphisms.ComposeIgnoresEndpoints | src/morphism.rs:45-51 | composing a starting value through two morphisms gives the same result whatever their domains and codomains are: only the two maps matter, and no check that the first codomain equals the second domain takes place |
| Morphisms.ComposeScenario | src/morphism.rs:45-51 | composing a -> b (a to b) with b -> c (b to c) on a yields c |
| CategoryLaws.ComposeAssociative | src/morphism.rs:45-51 | composition is associative, as the crate documentation requires (src/lib.rs:10): applying h to the composite of f and g equals composing g and h on f's image, and the two bracketings of a triple composite agree on every starting value |
| CategoryLaws.ComposeIdentity | src/morphism.rs:45-51 | identity morphisms (src/lib.rs:8) are neutral for composition: composing through an identity on either side yields the other morphism's image of the starting value |
| CategoryLaws.ThenAssociative | src/lib.rs:10 | (h∘g)∘f and h∘(g∘f) have the same endpoints, agree at every value and pass the equality check |
| CategoryLaws.ThenIdentity | src/lib.rs:8 | f∘id and id∘f, with the identities at f's endpoints, agree with f everywhere and pass the equality check against f |
| CategoryLaws.ThenRespectsAgree | src/morphism.rs:50 | composites of everywhere-agreeing morphisms agree everywhere |
| CategoryLaws.ThenAfterRespectsCheckEq | src/morphism.rs:31-33 | composing afterwards preserves the check: if f and g pass it, then h∘f and h∘g pass it for every h |
| CategoryLaws.ThenIgnoresCheckEq | src/morphism.rs:31-33 | composing in front does not preserve the check: g and g' that pass it can give composites g∘f and g'∘f that fail it, because f's image of its domain need not be g's domain |
| CategoryLaws.ComposeChain | src/morphism.rs:45-51 | an n-fold compose over a sequence of endomorphisms; the source has no such function, and the chain lemmas below tie it to `compose` |
| CategoryLaws.ChainOfTwo | src/morphism.rs:50 | applying a chain of two endomorphisms is one `Compose` |
| CategoryLaws.ChainThenCompose | src/morphism.rs:50 | for a chain of any length, appending two endomorphisms gives `Compose` of those two applied to the chain's value |
| CategoryLaws.ChainConcat | src/lib.rs:10 | a chain of endomorphisms split anywhere gives the same value as applying the two halves in turn, so every bracketing agrees |
| CategoryLaws.ChainIdentity | src/lib.rs:8-10 | an identity morphism inserted anywhere in a chain leaves its value unchanged |
| PowerObjects.FromParts | src/object.rs:19-26 | a discriminant below 3 and two indices rebuild a request with that discriminant and those indices; any other discriminant yields nothing |
| PowerObjects.PartsRoundTrip | src/object.rs:19-26 | every request is rebuilt from its own discriminant and indices |
| PowerObjects.StructuralEquality | src/object.rs:18 | two requests are equal exactly when they share the variant and both indices |
| PowerObjects.DistinctRequests | src/object.rs:18-26 | Product(0,1) differs from Coproduct(0,1); Coproduct(0,1) differs from Exponential(0,1); Product(0,1) differs from Product(1,0) |
| PowerObjects.ValidRequest | src/object.rs:20-25 | both indices of a request are positions of the object sequence |
| PowerObjects.Witnesses | src/object.rs:28-33 | the documented answer to a valid request: a product has exactly two projections from the new object to objects[i] and objects[j], in that order; a coproduct has exactly two injections from objects[i] and objects[j] into it; an exponential has exactly one evaluation map into objects[j] |
| PowerObjects.Conforming | src/object.rs:34-39 | a generator is conforming when it answers every valid request as `Witnesses` describes; the model assumes this of an implementation and never proves it |
| PowerObjects.GeneratePowerObject | src/object.rs:34-39 | for a conforming generator and valid indices: a product's two projections run from the new object to objects[i] and objects[j], in that order; a coproduct's two injections run from objects[i] and objects[j] into the new object; an exponential's single evaluation map lands in objects[j] |
| PowerObjects.SwappedIndices | src/object.rs:30-32 | swapping a product's indices swaps its projections' codomains, and swapping a coproduct's indices swaps its injections' domains |
| PowerObjects.ProductScenario | src/object.rs:35-39 | the product of [A, B] at indices 0 and 1 has two projections from the new object, with codomains A and then B |

## Left out

- Object equality is Dafny's `==`, which is always an equivalence. The
  source asks only `PartialEq` of objects, so a Rust object type whose
  equality is not reflexive would break the reflexivity of
  `check_eq_morphisms`. That case is not modelled.
- Objects must be `Clone` and `Debug` (src/object.rs:10), and
  `PowerObjectType` derives `Clone`, `Debug` and `Hash` (src/object.rs:18).
  None of these has behaviour beyond equality, so they are not modelled.
- Rust's dynamic dispatch (`&dyn Morphism`, `Box<dyn Morphism>`) is a
  representation detail. A morphism here is a plain value holding a pure
  function.
- A user-supplied `map` that is impure or non-deterministic is not
  modelled. Every map is a pure total function.
- The `categories` module of `src/lib.rs` is not part of this model. No
  concrete category and no concrete generator is modelled.
- Monic morphisms and terminal objects are described in the crate
  documentation but never implemented. They are not modelled.
- The universal properties of products, coproducts and exponentials are
  not modelled. This covers the uniqueness of mediating morphisms, the
  projection laws and currying. No code computes them, and stating them
  needs operations (pairing into a product, copairing out of a coproduct,
  currying) that no concrete category here supplies.
- PowerObjects.Witnesses: does not require a coproduct's two injections
  to have disjoint images. The enum's documentation (src/object.rs:16)
  describes Coproduct as "disjoint union with injections (like disjoint
  union for sets)". Disjoint union is read there as the instance in the
  category of sets, just as Product is "like cartesian product for sets"
  (src/object.rs:15). It is not a promise for every category. The
  generator's own documentation (src/object.rs:32, src/lib.rs:32-33)
  promises injections that satisfy the universal property. That property
  does not imply disjointness: in the category of groups both injections
  send the unit to the unit.
- PowerObjects.GeneratePowerObject: its guarantees are derived from the
  assumption `Conforming(gen)`. They are the generator's documented
  contract, not something proved of an implementation.
- PowerObjects.GeneratePowerObject: the domain of the exponential's
  evaluation map is a product of the new object with objects[i]. The
  return value does not carry that product object, so only the codomain is
  stated.
- PowerObjects.GeneratePowerObject: the trait documentation says
  "evaluation morphisms" (plural) for exponentials, while the crate
  documentation names a single evaluation map `ev`. The model asks for
  exactly one.
- PowerObjects.GeneratePowerObject: the signature has no failure channel.
  Out-of-range indices are excluded by a precondition rather than modelled
  as an error or a panic.
- `usize` is taken to be 64 bits wide.
