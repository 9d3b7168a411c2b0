/** The catalog list store: a local, ordered copy of the remote product list,
    a loading flag and the message of the last failed call. Every remote call
    is an `Outcome` parameter; each action runs as one sequential step. */
module ProductStore {
  import opened Outcomes

  /** A product identifier; the store only ever compares two of them with
      strict equality. */
  type ProductId(==, !new)

  /** Everything the remote API returns for a product besides its id. */
  type ProductFields(!new)

  datatype Product = Product(id: ProductId, fields: ProductFields)

  /** The error value of a failed remote call, of which the store keeps only
      the message. */
  type CallError = string

  // ---------------------------------------------------------------------------
  // Operations on the local list
  // ---------------------------------------------------------------------------

  /** `products.findIndex(p => p.id === id)`: the first index holding `id`,
      or -1 when no element does. */
  function FirstIndexOf(s: seq<Product>, id: ProductId): (r: int)
    ensures -1 <= r < |s|
    ensures r == -1 <==> forall k :: 0 <= k < |s| ==> s[k].id != id
    ensures r != -1 ==> s[r].id == id
    ensures r != -1 ==> forall k :: 0 <= k < r ==> s[k].id != id
  {
    if |s| == 0 then -1
    else if s[0].id == id then 0
    else
      var r := FirstIndexOf(s[1..], id);
      if r == -1 then -1 else r + 1
  }

  /** True when `i` is the first position of `s` holding `id`. */
  ghost predicate IsFirstMatch(s: seq<Product>, id: ProductId, i: int)
  {
    0 <= i < |s| && s[i].id == id && forall k :: 0 <= k < i ==> s[k].id != id
  }

  /** The list after the replacement done by a successful update: the first
      element whose id is `id` becomes `p`; without such an element the list
      is left as it was. */
  function ReplaceFirst(s: seq<Product>, id: ProductId, p: Product): (r: seq<Product>)
    ensures |r| == |s|
    ensures (forall k :: 0 <= k < |s| ==> s[k].id != id) ==> r == s
    ensures forall i :: IsFirstMatch(s, id, i) ==>
              r[i] == p && forall k :: 0 <= k < |s| && k != i ==> r[k] == s[k]
  {
    var index := FirstIndexOf(s, id);
    if index != -1 then s[index := p] else s
  }

  /** `products.filter(p => p.id !== id)`: the elements whose id differs from
      `id`, in their original order. */
  function Without(s: seq<Product>, id: ProductId): (r: seq<Product>)
    ensures |r| <= |s|
    ensures forall x :: x in r <==> x in s && x.id != id
  {
    if |s| == 0 then []
    else (if s[0].id == id then [] else [s[0]]) + Without(s[1..], id)
  }

  // ---------------------------------------------------------------------------
  // Properties of the list operations
  // ---------------------------------------------------------------------------

  /** Filtering works piecewise, so the survivors keep their relative order:
      whatever came before another survivor in `a + b` still does. */
  lemma {:induction false} WithoutAppend(a: seq<Product>, b: seq<Product>, id: ProductId)
    ensures Without(a + b, id) == Without(a, id) + Without(b, id)
  {
    if |a| == 0 {
      assert a + b == b;
    } else {
      assert (a + b)[1..] == a[1..] + b;
      WithoutAppend(a[1..], b, id);
    }
  }

  /** Deleting keeps every element with a different id exactly as often as
      it occurred, and keeps no element with the deleted id. */
  lemma {:induction false} WithoutCounts(s: seq<Product>, id: ProductId, x: Product)
    ensures multiset(Without(s, id))[x] == if x.id == id then 0 else multiset(s)[x]
  {
    if |s| != 0 {
      WithoutCounts(s[1..], id, x);
      assert s == [s[0]] + s[1..];
    }
  }

  /** Deleting changes the list exactly when some element carries the id. */
  lemma {:induction false} WithoutUnchangedIff(s: seq<Product>, id: ProductId)
    ensures Without(s, id) == s <==> forall k :: 0 <= k < |s| ==> s[k].id != id
  {
    if |s| != 0 {
      WithoutUnchangedIff(s[1..], id);
      if s[0].id == id {
        assert |Without(s, id)| < |s|;
      } else {
        assert s == [s[0]] + s[1..];
        assert forall k :: 1 <= k < |s| ==> s[k] == s[1..][k - 1];
      }
    }
  }

  /** Deleting the same id twice is the same as deleting it once. */
  lemma {:induction false} WithoutIdempotent(s: seq<Product>, id: ProductId)
    ensures Without(Without(s, id), id) == Without(s, id)
  {
    var r := Without(s, id);
    forall k | 0 <= k < |r| ensures r[k].id != id {
      assert r[k] in r;
    }
    WithoutUnchangedIff(r, id);
  }

  /** Because adding does not deduplicate, a later delete of the added id
      removes the added element together with any older namesakes. */
  lemma DeleteUndoesAdd(s: seq<Product>, p: Product)
    ensures Without(s + [p], p.id) == Without(s, p.id)
  {
    WithoutAppend(s, [p], p.id);
    assert Without([p], p.id) == [];
  }

  /** Once an id is deleted, an update for it leaves the list unchanged. */
  lemma UpdateAfterDeleteIsNoOp(s: seq<Product>, id: ProductId, p: Product)
    ensures ReplaceFirst(Without(s, id), id, p) == Without(s, id)
  {
    var r := Without(s, id);
    forall k | 0 <= k < |r| ensures r[k].id != id {
      assert r[k] in r;
    }
  }

  /** When an added product's id was already present, an update for that id
      replaces the older element and leaves the added one in place. */
  lemma UpdateAfterDuplicateAdd(s: seq<Product>, p: Product, q: Product)
    requires exists k :: 0 <= k < |s| && s[k].id == p.id
    ensures ReplaceFirst(s + [p], p.id, q) == ReplaceFirst(s, p.id, q) + [p]
  {
    var i := FirstIndexOf(s, p.id);
    assert IsFirstMatch(s + [p], p.id, i);
    var r := ReplaceFirst(s + [p], p.id, q);
    var t := ReplaceFirst(s, p.id, q) + [p];
    assert IsFirstMatch(s, p.id, i);
    forall k | 0 <= k < |r| ensures r[k] == t[k] {
    }
  }

  // ---------------------------------------------------------------------------
  // The store
  // ---------------------------------------------------------------------------

  /** The catalog store. Every action raises `isLoading` and clears `error`
      on entry, records the message of a failed call in `error`, and lowers
      `isLoading` on every exit path. */
  class CatalogStore {
    var products: seq<Product>
    var isLoading: bool
    var error: Option<string>

    /** The initial state: an empty list, not loading, no error. */
    constructor ()
      ensures products == [] && !isLoading && error == None
    {
      products := [];
      isLoading := false;
      error := None;
    }

    /** `fetchProducts`: replace the whole list with the response's list.
        A failure is recorded but not re-raised. */
    method FetchProducts(response: Outcome<seq<Product>, CallError>) returns (c: Completion<()>)
      modifies this
      ensures c == Returned(())
      ensures !isLoading
      ensures response.Success? ==> error == None && products == response.data
      ensures response.Failure? ==> error == Some(response.error) && products == old(products)
    {
      isLoading := true;
      error := None;
      match response {
        case Success(list) =>
          products := list;
        case Failure(e) =>
          error := Some(e);
      }
      isLoading := false;
      c := Returned(());
    }

    /** `fetchProductById`: return the fetched record; the list never
        changes. A failure is recorded and re-raised. */
    method FetchProductById(id: ProductId, response: Outcome<Product, CallError>)
      returns (c: Completion<Product>)
      modifies this
      ensures products == old(products)
      ensures !isLoading
      ensures response.Success? ==> error == None && c == Returned(response.data)
      ensures response.Failure? ==> error == Some(response.error) && c == Threw(response.error)
    {
      isLoading := true;
      error := None;
      match response {
        case Success(p) =>
          c := Returned(p);
        case Failure(e) =>
          error := Some(e);
          c := Threw(e);
      }
      isLoading := false;
    }

    /** `addProduct`: append the server's record to the end of the list,
        with no check for an existing element with the same id. */
    method AddProduct(response: Outcome<Product, CallError>) returns (c: Completion<Product>)
      modifies this
      ensures !isLoading
      ensures response.Success? ==>
                && error == None
                && c == Returned(response.data)
                && products == old(products) + [response.data]
                && |products| == |old(products)| + 1
                && products[..|old(products)|] == old(products)
                && products[|products| - 1] == response.data
      ensures response.Failure? ==>
                error == Some(response.error) && c == Threw(response.error) && products == old(products)
    {
      isLoading := true;
      error := None;
      match response {
        case Success(p) =>
          products := products + [p];
          c := Returned(p);
        case Failure(e) =>
          error := Some(e);
          c := Threw(e);
      }
      isLoading := false;
    }

    /** `updateProduct`: put the server's record at the first index whose id
        is `id`; if there is none, the list stays as it was even though the
        remote update succeeded. */
    method UpdateProduct(id: ProductId, response: Outcome<Product, CallError>)
      returns (c: Completion<Product>)
      modifies this
      ensures !isLoading
      ensures |products| == |old(products)|
      ensures response.Success? ==>
                error == None && c == Returned(response.data)
                && products == ReplaceFirst(old(products), id, response.data)
      ensures response.Failure? ==>
                error == Some(response.error) && c == Threw(response.error) && products == old(products)
    {
      isLoading := true;
      error := None;
      match response {
        case Success(p) =>
          var index := FirstIndexOf(products, id);
          if index != -1 {
            products := products[index := p];
          }
          c := Returned(p);
        case Failure(e) =>
          error := Some(e);
          c := Threw(e);
      }
      isLoading := false;
    }

    /** `deleteProduct`: after the remote call succeeds, drop every element
        whose id is `id`; after a failure nothing is removed. */
    method DeleteProduct(id: ProductId, response: Outcome<(), CallError>) returns (c: Completion<()>)
      modifies this
      ensures !isLoading
      ensures response.Success? ==>
                error == None && c == Returned(())
                && products == Without(old(products), id)
                && forall k :: 0 <= k < |products| ==> products[k].id != id
      ensures response.Failure? ==>
                error == Some(response.error) && c == Threw(response.error) && products == old(products)
    {
      isLoading := true;
      error := None;
      match response {
        case Success(_) =>
          products := Without(products, id);
          assert forall k :: 0 <= k < |products| ==> products[k] in products;
          c := Returned(());
        case Failure(e) =>
          error := Some(e);
          c := Threw(e);
      }
      isLoading := false;
    }
  }
}
