/** The product ledger: an ordered list of invoice lines whose derived fields
    are frozen when a line is added. */
module ProductSlice {

  /** The GST rate applied to every line (18%), exact as a real. */
  const GstRate: real := 0.18

  /** One invoice line. `total` and `gst` are stored, not recomputed. */
  datatype Product = Product(id: string, name: string, qty: real, rate: real, total: real, gst: real)
  {
    /** The arithmetic the ledger freezes into each line: the GST is 18% of
        quantity times rate. */
    predicate Consistent(): (r: bool)
      ensures r ==> gst == qty * rate * GstRate
    {
      total == qty * rate && gst == total * GstRate
    }
  }

  /** The line `addProduct` pushes for a payload and an id. */
  function NewProduct(id: string, name: string, qty: real, rate: real): (p: Product)
    ensures p.Consistent()
    ensures p.id == id && p.name == name && p.qty == qty && p.rate == rate
  {
    var total := qty * rate;
    Product(id, name, qty, rate, total, total * GstRate)
  }

  ghost predicate AllConsistent(s: seq<Product>)
  {
    forall p :: p in s ==> p.Consistent()
  }

  function Ids(s: seq<Product>): set<string>
  {
    set p | p in s :: p.id
  }

  ghost predicate DistinctIds(s: seq<Product>)
  {
    forall i, j :: 0 <= i < j < |s| ==> s[i].id != s[j].id
  }

  /** `products.filter(product => product.id !== id)`. */
  function Without(s: seq<Product>, id: string): (r: seq<Product>)
    ensures forall p :: p in r <==> p in s && p.id != id
    ensures |r| <= |s|
    decreases |s|
  {
    if s == [] then [] else (if s[0].id == id then [] else [s[0]]) + Without(s[1..], id)
  }

  /** How many lines carry the id. */
  function CountId(s: seq<Product>, id: string): nat
    decreases |s|
  {
    if s == [] then 0 else (if s[0].id == id then 1 else 0) + CountId(s[1..], id)
  }

  /** Filtering distributes over concatenation, so the kept lines stay in
      their original relative order. */
  lemma {:induction false} WithoutAppend(a: seq<Product>, b: seq<Product>, id: string)
    ensures Without(a + b, id) == Without(a, id) + Without(b, id)
    decreases |a|
  {
    if a == [] {
      assert a + b == b;
    } else {
      assert (a + b)[0] == a[0];
      assert (a + b)[1..] == a[1..] + b;
      WithoutAppend(a[1..], b, id);
    }
  }

  /** Removing an id no line carries changes nothing. */
  lemma {:induction false} WithoutAbsent(s: seq<Product>, id: string)
    requires id !in Ids(s)
    ensures Without(s, id) == s
    decreases |s|
  {
    if s != [] {
      assert s[0] in s;
      assert Ids(s[1..]) <= Ids(s) by {
        forall x | x in Ids(s[1..]) ensures x in Ids(s) {
          var p :| p in s[1..] && p.id == x;
          assert p in s;
        }
      }
      WithoutAbsent(s[1..], id);
      assert [s[0]] + s[1..] == s;
    }
  }

  /** Removing the same id twice is removing it once. */
  lemma WithoutIdempotent(s: seq<Product>, id: string)
    ensures Without(Without(s, id), id) == Without(s, id)
  {
    var r := Without(s, id);
    assert id !in Ids(r) by {
      forall p | p in r ensures p.id != id { }
    }
    WithoutAbsent(r, id);
  }

  /** Removal shortens the list by exactly the number of lines carrying the id. */
  lemma {:induction false} WithoutLength(s: seq<Product>, id: string)
    ensures |Without(s, id)| == |s| - CountId(s, id)
    decreases |s|
  {
    if s != [] {
      WithoutLength(s[1..], id);
    }
  }

  /** With distinct ids, an id occurs at most once, and exactly once when
      present; `Remove` uses it to state that a present id then costs exactly
      one line. */
  lemma {:induction false} CountIdDistinct(s: seq<Product>, id: string)
    requires DistinctIds(s)
    ensures CountId(s, id) == if id in Ids(s) then 1 else 0
    decreases |s|
  {
    if s != [] {
      var t := s[1..];
      assert DistinctIds(t) by {
        forall i, j | 0 <= i < j < |t| ensures t[i].id != t[j].id {
          assert t[i] == s[i + 1] && t[j] == s[j + 1];
        }
      }
      CountIdDistinct(t, id);
      assert Ids(s) == {s[0].id} + Ids(t) by {
        assert s == [s[0]] + t;
        forall x ensures x in Ids(s) <==> x == s[0].id || x in Ids(t) {
          if x in Ids(s) {
            var p :| p in s && p.id == x;
            var k :| 0 <= k < |s| && s[k] == p;
            if k > 0 { assert t[k - 1] == p; }
          }
          if x in Ids(t) {
            var p :| p in t && p.id == x;
            assert p in s;
          }
        }
      }
      if s[0].id == id {
        assert id !in Ids(t) by {
          forall p | p in t ensures p.id != id {
            var k :| 0 <= k < |t| && t[k] == p;
            assert s[k + 1] == p;
          }
        }
      }
    }
  }

  /** Two adds that drew the same id (the same millisecond) are removed
      together: removal takes out every line carrying the id. */
  lemma CollidingAddsRemovedTogether(s: seq<Product>, p: Product, q: Product)
    requires p.id == q.id
    ensures Without(s + [p, q], p.id) == Without(s, p.id)
  {
    WithoutAppend(s, [p, q], p.id);
    assert [p, q][1..] == [q];
  }

  /** The ledger: `state.products`, mutated in place by the three reducers. */
  class ProductStore {
    var products: seq<Product>

    /** Every stored line carries its frozen total and GST. */
    ghost predicate Valid(): (r: bool)
      reads this
      ensures r ==> forall p :: p in products ==> p.gst == p.qty * p.rate * GstRate
    {
      AllConsistent(products)
    }

    /** `initialState`: an empty list. */
    constructor ()
      ensures Valid()
      ensures products == []
    {
      products := [];
    }

    /** `addProduct`: append one line built from the payload and the id. */
    method Add(id: string, name: string, qty: real, rate: real)
      requires Valid()
      modifies this
      ensures Valid()
      ensures |products| == |old(products)| + 1
      ensures products[..|old(products)|] == old(products)
      ensures products[|old(products)|] == NewProduct(id, name, qty, rate)
      ensures DistinctIds(old(products)) && id !in Ids(old(products)) ==> DistinctIds(products)
    {
      ghost var before := products;
      products := products + [NewProduct(id, name, qty, rate)];
      if id !in Ids(before) {
        forall i | 0 <= i < |before| ensures before[i].id != id {
          assert before[i] in before;
        }
      }
    }

    /** `removeProduct`: keep exactly the lines whose id differs. */
    method Remove(id: string)
      requires Valid()
      modifies this
      ensures Valid()
      ensures products == Without(old(products), id)
      ensures |products| == |old(products)| - CountId(old(products), id)
      ensures id !in Ids(old(products)) ==> products == old(products)
      ensures DistinctIds(old(products)) && id in Ids(old(products)) ==> |products| == |old(products)| - 1
    {
      WithoutLength(products, id);
      if DistinctIds(products) {
        CountIdDistinct(products, id);
      }
      if id !in Ids(products) {
        WithoutAbsent(products, id);
      }
      products := Without(products, id);
    }

    /** `clearProducts`: empty the list. */
    method Clear()
      modifies this
      ensures Valid()
      ensures products == []
    {
      products := [];
    }
  }
}
