/** The related-products choice on the product page
    (app/components/ClientProductDetail.tsx): of all products, keep those in
    the viewed product's category other than the viewed product itself
    (`p.id !== productData.id`), then take the first four. */
module RelatedProducts {
  import opened Catalog

  const MaxRelated: nat := 4

  predicate IsRelated(p: Product, viewed: Product) {
    p.category == viewed.category && p.id != viewed.id
  }

  /** `allProducts.filter(p => IsRelated(p, viewed))`, defined from the back
      so that a prefix of the catalogue filters to a prefix of the result. */
  function RelatedOf(all: seq<Product>, viewed: Product): seq<Product>
    decreases |all|
  {
    if all == [] then []
    else
      var last := all[|all| - 1];
      RelatedOf(all[..|all| - 1], viewed) + (if IsRelated(last, viewed) then [last] else [])
  }

  /** How many products of `all` are related to `viewed`. */
  function CountRelated(all: seq<Product>, viewed: Product): nat
    decreases |all|
  {
    if all == [] then 0
    else CountRelated(all[..|all| - 1], viewed) + (if IsRelated(all[|all| - 1], viewed) then 1 else 0)
  }

  function Min(a: nat, b: nat): nat {
    if a <= b then a else b
  }

  /** `filter(...).slice(0, 4)`. The result has min(4, #related) products,
      all in the viewed product's category and none of them the viewed
      product; and the k-th related product of the catalogue (counting from
      0, for k < 4) is at position k, so the result is the first related
      products in catalogue order. */
  function SelectRelated(all: seq<Product>, viewed: Product): (r: seq<Product>)
    ensures |r| == Min(MaxRelated, CountRelated(all, viewed))
    ensures forall p | p in r :: p.category == viewed.category && p.id != viewed.id
    ensures forall j | 0 <= j < |all| && IsRelated(all[j], viewed) && CountRelated(all[..j], viewed) < MaxRelated ::
      CountRelated(all[..j], viewed) < |r| && r[CountRelated(all[..j], viewed)] == all[j]
  {
    var matches := RelatedOf(all, viewed);
    RelatedOfShape(all, viewed);
    forall j | 0 <= j < |all| && IsRelated(all[j], viewed) && CountRelated(all[..j], viewed) < MaxRelated
      ensures CountRelated(all[..j], viewed) < |matches| && matches[CountRelated(all[..j], viewed)] == all[j]
    {
      RelatedOfAt(all, viewed, j);
    }
    var r := matches[..Min(MaxRelated, |matches|)];
    assert forall p | p in r :: p in matches;
    r
  }

  /** The filtered list counts the related products and holds only those. */
  lemma {:induction false} RelatedOfShape(all: seq<Product>, viewed: Product)
    ensures |RelatedOf(all, viewed)| == CountRelated(all, viewed)
    ensures forall p | p in RelatedOf(all, viewed) :: IsRelated(p, viewed)
    decreases |all|
  {
    if all != [] {
      RelatedOfShape(all[..|all| - 1], viewed);
    }
  }

  /** Filtering a prefix gives a prefix of the filtered list. */
  lemma {:induction false} RelatedOfPrefix(all: seq<Product>, viewed: Product, n: nat)
    requires n <= |all|
    ensures RelatedOf(all[..n], viewed) <= RelatedOf(all, viewed)
    decreases |all| - n
  {
    if n < |all| {
      var front := all[..|all| - 1];
      assert front[..n] == all[..n];
      RelatedOfPrefix(front, viewed, n);
    } else {
      assert all[..n] == all;
    }
  }

  /** A related product at catalogue position j sits in the filtered list at
      the number of related products before it. */
  lemma RelatedOfAt(all: seq<Product>, viewed: Product, j: nat)
    requires j < |all| && IsRelated(all[j], viewed)
    ensures CountRelated(all[..j], viewed) < |RelatedOf(all, viewed)|
    ensures RelatedOf(all, viewed)[CountRelated(all[..j], viewed)] == all[j]
  {
    var upto := all[..j + 1];
    assert upto[..|upto| - 1] == all[..j];
    assert upto[|upto| - 1] == all[j];
    RelatedOfShape(all[..j], viewed);
    assert RelatedOf(upto, viewed) == RelatedOf(all[..j], viewed) + [all[j]];
    RelatedOfPrefix(all, viewed, j + 1);
  }
}
