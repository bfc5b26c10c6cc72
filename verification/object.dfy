/** Power objects: the three standard constructions a category can build
    from two of its objects, and the contract of a generator that builds them.

    The generator is supplied by a concrete category. Here it is a function
    parameter `gen` of the fixed shape (request, objects) -> (object,
    morphisms), and what its documentation promises is the predicate
    `Conforming(gen)`: an assumption callers make about an implementation,
    never something this model proves of one.
 */
module PowerObjects {
  import opened Morphisms

  /** The range of a 64-bit `usize`. */
  const USIZE_BOUND: int := 0x1_0000_0000_0000_0000

  type Usize = x: int | 0 <= x < USIZE_BOUND

  /** A construction request naming two positions `i` and `j` of an object
      sequence: the product, the coproduct or the exponential (all maps from
      the object at `i` to the object at `j`). */
  datatype PowerObjectType =
    | Product(i: Usize, j: Usize)
    | Coproduct(i: Usize, j: Usize)
    | Exponential(i: Usize, j: Usize)

  /** The variant's discriminant, in declaration order. */
  function Tag(p: PowerObjectType): nat {
    match p
    case Product(_, _) => 0
    case Coproduct(_, _) => 1
    case Exponential(_, _) => 2
  }

  datatype Option<T> = None | Some(value: T)

  /** Rebuilds a request from a discriminant and two indices; `None` for a
      discriminant that names no variant. */
  function FromParts(t: nat, i: Usize, j: Usize): (r: Option<PowerObjectType>)
    ensures r.Some? <==> t < 3
    ensures r.Some? ==> Tag(r.value) == t && r.value.i == i && r.value.j == j
  {
    if t == 0 then Some(Product(i, j))
    else if t == 1 then Some(Coproduct(i, j))
    else if t == 2 then Some(Exponential(i, j))
    else None
  }

  /** A request is determined by its discriminant and its two indices. */
  lemma PartsRoundTrip(p: PowerObjectType)
    ensures FromParts(Tag(p), p.i, p.j) == Some(p)
  {
  }

  /** Derived equality is structural: same variant and both indices equal. */
  lemma StructuralEquality(p: PowerObjectType, q: PowerObjectType)
    ensures p == q <==> Tag(p) == Tag(q) && p.i == q.i && p.j == q.j
  {
    if Tag(p) == Tag(q) && p.i == q.i && p.j == q.j {
      PartsRoundTrip(p);
      PartsRoundTrip(q);
    }
  }

  /** Equal indices do not make different constructions equal, and the order
      of the indices matters. */
  lemma DistinctRequests()
    ensures Product(0, 1) != Coproduct(0, 1)
    ensures Coproduct(0, 1) != Exponential(0, 1)
    ensures Product(0, 1) != Product(1, 0)
  {
  }

  /** Both indices name positions of the object sequence. */
  predicate ValidRequest<O>(p: PowerObjectType, objects: seq<O>) {
    p.i < |objects| && p.j < |objects|
  }

  /** How many witnessing morphisms each construction comes with: two
      projections, two injections, one evaluation map. */
  function WitnessCount(p: PowerObjectType): nat {
    match p
    case Product(_, _) => 2
    case Coproduct(_, _) => 2
    case Exponential(_, _) => 1
  }

  /** A generator: from a request and the object sequence to the new object
      and the morphisms that witness its universal property. */
  type Generator<!O> = (PowerObjectType, seq<O>) -> (O, HomSet<O, O>)

  /** The documented shape of a generator's answer to a valid request:
      - Product(i, j): object P with projections P -> objects[i] and
        P -> objects[j], in that order;
      - Coproduct(i, j): object S with injections objects[i] -> S and
        objects[j] -> S, in that order;
      - Exponential(i, j): object E with one evaluation map into objects[j]
        (its domain, a product of E and objects[i], is category-specific). */
  predicate Witnesses<O(==)>(p: PowerObjectType, objects: seq<O>, result: (O, HomSet<O, O>))
    requires ValidRequest(p, objects)
  {
    var (obj, ms) := result;
    |ms| == WitnessCount(p)
    && match p
       case Product(i, j) =>
         ms[0].dom == obj && ms[0].cod == objects[i]
         && ms[1].dom == obj && ms[1].cod == objects[j]
       case Coproduct(i, j) =>
         ms[0].dom == objects[i] && ms[0].cod == obj
         && ms[1].dom == objects[j] && ms[1].cod == obj
       case Exponential(_, j) =>
         ms[0].cod == objects[j]
  }

  /** The generator answers every valid request as documented. */
  ghost predicate Conforming<O(!new)>(gen: Generator<O>) {
    forall p, objects | ValidRequest(p, objects) :: Witnesses(p, objects, gen(p, objects))
  }

  /** Asks the generator for a power object. The signature offers no failure
      channel, so the request must be valid. */
  function GeneratePowerObject<O(==,!new)>(gen: Generator<O>, p: PowerObjectType, objects: seq<O>)
    : (r: (O, HomSet<O, O>))
    requires ValidRequest(p, objects)
    requires Conforming(gen)
    ensures |r.1| == WitnessCount(p)
    ensures p.Product? ==> r.1[0].dom == r.0 && r.1[1].dom == r.0
                           && r.1[0].cod == objects[p.i] && r.1[1].cod == objects[p.j]
    ensures p.Coproduct? ==> r.1[0].cod == r.0 && r.1[1].cod == r.0
                             && r.1[0].dom == objects[p.i] && r.1[1].dom == objects[p.j]
    ensures p.Exponential? ==> r.1[0].cod == objects[p.j]
  {
    gen(p, objects)
  }

  /** Swapping the indices of a product swaps the codomains of its
      projections; the same holds of a coproduct's injection domains. */
  lemma SwappedIndices<O(!new)>(gen: Generator<O>, i: Usize, j: Usize, objects: seq<O>)
    requires i < |objects| && j < |objects|
    requires Conforming(gen)
    ensures var (_, ms) := GeneratePowerObject(gen, Product(i, j), objects);
            var (_, ns) := GeneratePowerObject(gen, Product(j, i), objects);
            ms[0].cod == ns[1].cod && ms[1].cod == ns[0].cod
    ensures var (_, ms) := GeneratePowerObject(gen, Coproduct(i, j), objects);
            var (_, ns) := GeneratePowerObject(gen, Coproduct(j, i), objects);
            ms[0].dom == ns[1].dom && ms[1].dom == ns[0].dom
  {
  }

  /** A product of the objects A and B: two projections whose codomains are
      A and then B. */
  lemma ProductScenario<O(!new)>(gen: Generator<O>, a: O, b: O)
    requires Conforming(gen)
    ensures var (obj, ms) := GeneratePowerObject(gen, Product(0, 1), [a, b]);
            |ms| == 2 && ms[0].cod == a && ms[1].cod == b
            && ms[0].dom == obj && ms[1].dom == obj
  {
  }
}
