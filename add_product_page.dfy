/** The item-entry page: the submit guard and form reset, the "next" guard,
    and the footer totals. */
module AddProductPage {
  import opened Folds
  import opened ProductSlice
  import opened GeneratePdfPage

  /** `name && qty > 0 && rate >= 0`: a string is truthy when non-empty.
      A payload it admits freezes a non-negative total and GST. */
  predicate SubmitGuard(name: string, qty: real, rate: real): (r: bool)
    ensures r ==> NewProduct("", name, qty, rate).total >= 0.0 && NewProduct("", name, qty, rate).gst >= 0.0
  {
    name != "" && qty > 0.0 && rate >= 0.0
  }

  /** A line whose payload passed the submit guard. */
  ghost predicate Accepted(p: Product)
  {
    SubmitGuard(p.name, p.qty, p.rate)
  }

  ghost predicate AllAccepted(s: seq<Product>)
  {
    forall p :: p in s ==> Accepted(p)
  }

  function LineTotal(p: Product): real { p.total + p.gst }

  /** The footer's grand total: `reduce((sum, product) => sum + product.total + product.gst, 0)`.
      The per-line fold agrees with the preview page's `subtotal + gstAmount`. */
  function FooterGrandTotal(s: seq<Product>): (r: real)
    ensures r == GrandTotal(s)
  {
    SumPointwise(s, TotalOf, GstOf, LineTotal);
    Sum(s, LineTotal)
  }

  /** `handleNext`: navigation to the export step only with a non-empty list,
      which is exactly when the preview's generate button starts enabled. */
  predicate CanGoNext(s: seq<Product>): (r: bool)
    ensures r <==> !GenerateDisabled(false, s)
  {
    |s| > 0
  }

  /** A line that passed the guard and froze its derived fields has
      non-negative total and GST. */
  lemma AcceptedLineNonnegative(p: Product)
    requires Accepted(p) && p.Consistent()
    ensures p.total >= 0.0 && p.gst >= 0.0
  {
    assert p.qty * p.rate >= 0.0;
  }

  /** A ledger filled through the guard has non-negative footer totals. */
  lemma AcceptedTotalsNonnegative(s: seq<Product>)
    requires AllAccepted(s) && AllConsistent(s)
    ensures Subtotal(s) >= 0.0 && GstAmount(s) >= 0.0 && FooterGrandTotal(s) >= 0.0
  {
    forall i | 0 <= i < |s|
      ensures TotalOf(s[i]) >= 0.0 && GstOf(s[i]) >= 0.0 && LineTotal(s[i]) >= 0.0
    {
      assert s[i] in s;
      AcceptedLineNonnegative(s[i]);
    }
    SumNonnegative(s, LineTotal);
  }

  /** The form's state over the shared ledger. */
  class Form {
    var name: string
    var qty: real
    var rate: real
    const store: ProductStore

    constructor (store: ProductStore)
      ensures this.store == store
      ensures name == "" && qty == 1.0 && rate == 0.0
    {
      this.store := store;
      name, qty, rate := "", 1.0, 0.0;
    }

    /** `handleSubmit` with `id` standing for `Date.now().toString()`:
        dispatch an add and reset the form when the guard passes, otherwise
        change nothing. */
    method Submit(id: string) returns (dispatched: bool)
      requires store.Valid()
      modifies this`name, this`qty, this`rate, store
      ensures store.Valid()
      ensures dispatched <==> SubmitGuard(old(name), old(qty), old(rate))
      ensures dispatched ==>
        store.products == old(store.products) + [NewProduct(id, old(name), old(qty), old(rate))]
        && name == "" && qty == 1.0 && rate == 0.0
      ensures !dispatched ==>
        store.products == old(store.products)
        && name == old(name) && qty == old(qty) && rate == old(rate)
      ensures AllAccepted(old(store.products)) ==> AllAccepted(store.products)
    {
      dispatched := SubmitGuard(name, qty, rate);
      if dispatched {
        ghost var before := store.products;
        store.Add(id, name, qty, rate);
        assert store.products == before + [NewProduct(id, old(name), old(qty), old(rate))];
        name, qty, rate := "", 1.0, 0.0;
      }
    }
  }
}
