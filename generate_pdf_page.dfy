/** The invoice preview: the three derived totals and the export handler. */
module GeneratePdfPage {
  import opened Outcomes
  import opened Folds
  import opened ProductSlice

  const ExportFallback: string := "Failed to generate PDF"

  function TotalOf(p: Product): real { p.total }

  function GstOf(p: Product): real { p.gst }

  /** `products.reduce((sum, product) => sum + product.total, 0)`. */
  function Subtotal(s: seq<Product>): (r: real)
    ensures s == [] ==> r == 0.0
    ensures (forall i :: 0 <= i < |s| ==> s[i].total >= 0.0) ==> r >= 0.0
  {
    SumNonnegative(s, TotalOf);
    Sum(s, TotalOf)
  }

  /** `products.reduce((sum, product) => sum + product.gst, 0)`. */
  function GstAmount(s: seq<Product>): (r: real)
    ensures s == [] ==> r == 0.0
    ensures (forall i :: 0 <= i < |s| ==> s[i].gst >= 0.0) ==> r >= 0.0
  {
    SumNonnegative(s, GstOf);
    Sum(s, GstOf)
  }

  /** `subtotal + gstAmount`. */
  function GrandTotal(s: seq<Product>): (r: real)
    ensures s == [] ==> r == 0.0
    ensures (forall i :: 0 <= i < |s| ==> s[i].total >= 0.0 && s[i].gst >= 0.0) ==> r >= 0.0
  {
    Subtotal(s) + GstAmount(s)
  }

  /** The generate button's `disabled` rule: off while an export is in
      flight and whenever there is nothing to export. */
  predicate GenerateDisabled(isGenerating: bool, s: seq<Product>): (r: bool)
    ensures isGenerating ==> r
    ensures s == [] ==> r
    ensures !isGenerating && s != [] ==> !r
  {
    isGenerating || |s| == 0
  }

  /** Totals over a concatenation split into the totals of the parts. */
  lemma TotalsAppend(a: seq<Product>, b: seq<Product>)
    ensures Subtotal(a + b) == Subtotal(a) + Subtotal(b)
    ensures GstAmount(a + b) == GstAmount(a) + GstAmount(b)
    ensures GrandTotal(a + b) == GrandTotal(a) + GrandTotal(b)
  {
    SumAppend(a, b, TotalOf);
    SumAppend(a, b, GstOf);
  }

  /** Reordering the ledger leaves all three totals unchanged. */
  lemma TotalsPermutationInvariant(a: seq<Product>, b: seq<Product>)
    requires multiset(a) == multiset(b)
    ensures Subtotal(a) == Subtotal(b)
    ensures GstAmount(a) == GstAmount(b)
    ensures GrandTotal(a) == GrandTotal(b)
  {
    SumPermutation(a, b, TotalOf);
    SumPermutation(a, b, GstOf);
  }

  /** On a ledger of consistent lines the GST total is 18% of the subtotal. */
  lemma GstIsRateOfSubtotal(s: seq<Product>)
    requires AllConsistent(s)
    ensures GstAmount(s) == Subtotal(s) * GstRate
    ensures GrandTotal(s) == Subtotal(s) * (1.0 + GstRate)
  {
    forall i | 0 <= i < |s| ensures GstOf(s[i]) == TotalOf(s[i]) * GstRate {
      assert s[i] in s;
    }
    SumScaled(s, TotalOf, GstOf, GstRate);
  }

  /** Ten pens at 2.00 and five notebooks at 8.00. */
  lemma PenAndNotebookTotals()
    ensures var s := [NewProduct("1", "Pen", 10.0, 2.0), NewProduct("2", "Notebook", 5.0, 8.0)];
      Subtotal(s) == 60.0 && GstAmount(s) == 10.8 && GrandTotal(s) == 70.8
  {
    var s := [NewProduct("1", "Pen", 10.0, 2.0), NewProduct("2", "Notebook", 5.0, 8.0)];
    TotalsAppend([s[0]], [s[1]]);
    assert [s[0]] + [s[1]] == s;
    SumSingleton(s[0], TotalOf);
    SumSingleton(s[1], TotalOf);
    SumSingleton(s[0], GstOf);
    SumSingleton(s[1], GstOf);
  }

  /** The preview page's own state over the shared ledger. */
  class Preview {
    var isGenerating: bool
    var error: string
    const store: ProductStore

    constructor (store: ProductStore)
      ensures this.store == store
      ensures !isGenerating && error == ""
    {
      this.store := store;
      isGenerating := false;
      error := "";
    }

    /** The synchronous start of `handleGeneratePDF`; the ledger is not touched. */
    method BeginGenerate()
      modifies this`isGenerating, this`error
      ensures isGenerating && error == ""
    {
      isGenerating := true;
      error := "";
    }

    /** What happens once the export call settles: clear the ledger only on
        success, record the message only on failure, and always leave the
        generating state. */
    method FinishGenerate(outcome: Outcome) returns (navigated: bool)
      requires store.Valid()
      modifies this`isGenerating, this`error, store
      ensures store.Valid()
      ensures !isGenerating
      ensures navigated <==> outcome.Succeeded?
      ensures outcome.Succeeded? ==> store.products == [] && error == old(error)
      ensures outcome.Failed? ==>
        store.products == old(store.products) && error == Message(outcome.failure, ExportFallback)
    {
      match outcome {
        case Succeeded =>
          store.Clear();
          navigated := true;
        case Failed(f) =>
          error := Message(f, ExportFallback);
          navigated := false;
      }
      isGenerating := false;
    }

    /** `handleGeneratePDF` with the export call settled by `outcome`. The
        ledger handed to the exporter is the one before the call. */
    method HandleGeneratePdf(outcome: Outcome) returns (sent: seq<Product>, navigated: bool)
      requires store.Valid()
      modifies this`isGenerating, this`error, store
      ensures store.Valid()
      ensures sent == old(store.products)
      ensures !isGenerating
      ensures navigated <==> outcome.Succeeded?
      ensures outcome.Succeeded? ==>
        store.products == [] && error == "" && GrandTotal(store.products) == 0.0
        && GenerateDisabled(isGenerating, store.products)
      ensures outcome.Failed? ==>
        store.products == old(store.products) && error == Message(outcome.failure, ExportFallback)
        && (GenerateDisabled(isGenerating, store.products) <==> |old(store.products)| == 0)
    {
      BeginGenerate();
      sent := store.products;
      navigated := FinishGenerate(outcome);
    }
  }
}
