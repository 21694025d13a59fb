/** The tools of Backend/STT/ai.py: the three stores are loaded once when
    the module starts, a failed load leaves a store empty, and the three
    lookups only read them. */
module SttAssistant {
  import opened PyText
  import opened Records
  import opened Seqs
  import OrderUtils
  import PolicyUtils

  const NoProducts := "No matching products found."
  const Limit := 3

  /** `load_json`: the parsed array, or `[]` when anything went wrong. */
  function LoadJson(src: Load): (r: seq<Record>)
    ensures src.Loaded? ==> r == src.records
    ensures src.Failed? ==> r == []
  {
    match src
    case Loaded(records) => records
    case Failed(_) => []
  }

  /** The product's text `str(p).lower()` contains the lowered query; `render`
      is Python's `str` of a dict. */
  predicate Mentions(render: Record -> string, p: Record, lq: string) {
    Contains(Lower(render(p)), lq)
  }

  /** `results` once the loop has gone through `products`. */
  function Mentioning(products: seq<Record>, render: Record -> string, lq: string): seq<Record> {
    Filter(products, p => Mentions(render, p, lq))
  }

  /** What keyword `search_products` returns for the products in memory. */
  function KeywordReply(products: seq<Record>, query: string, render: Record -> string): Output {
    var hits := Mentioning(products, render, Lower(query));
    if hits == [] then Text(NoProducts)
    else DumpList(if |hits| <= Limit then hits else hits[..Limit])
  }

  /** `rs` is what the keyword loop collects from the first `n` products. */
  predicate CollectedFrom(products: seq<Record>, render: Record -> string, lq: string, n: int, rs: seq<Record>) {
    0 <= n <= |products| && rs == Mentioning(products[..n], render, lq)
  }

  /** The keyword search returns the first three products, in catalogue
      order, whose lowered rendering contains the lowered query: it is what
      the scan of some prefix collects, only a scan of the whole catalogue
      yields fewer than three, and every product it holds mentions the query. */
  lemma KeywordFirstThree(products: seq<Record>, query: string, render: Record -> string)
    ensures KeywordReply(products, query, render).DumpList? ==>
      var rs := KeywordReply(products, query, render).records;
      && 1 <= |rs| <= Limit
      && (exists n :: CollectedFrom(products, render, Lower(query), n, rs) && (|rs| < Limit ==> n == |products|))
      && forall i :: 0 <= i < |rs| ==> rs[i] in products && Mentions(render, rs[i], Lower(query))
  {
    var lq := Lower(query);
    var hits := Mentioning(products, render, lq);
    if hits != [] {
      var k := if |hits| <= Limit then |hits| else Limit;
      var n := FilterPrefix(products, p => Mentions(render, p, lq), k);
      if k == |hits| {
        n := |products|;
        assert products[..n] == products;
      }
      assert hits[..k] == KeywordReply(products, query, render).records;
      assert CollectedFrom(products, render, lq, n, hits[..k]);
    }
  }

  /** The search finds nothing exactly when no product mentions the query. */
  lemma KeywordNothingFound(products: seq<Record>, query: string, render: Record -> string)
    ensures KeywordReply(products, query, render) == Text(NoProducts) <==>
      forall j :: 0 <= j < |products| ==> !Mentions(render, products[j], Lower(query))
  {
    var lq := Lower(query);
    var hits := Mentioning(products, render, lq);
    if hits != [] {
      assert hits[0] in products && Mentions(render, hits[0], lq);
      var j :| 0 <= j < |products| && products[j] == hits[0];
      assert Mentions(render, products[j], lq);
    }
  }

  /** A mentioning product with fewer than three mentioning products before
      it is returned, at the position that count gives, repeats included. */
  lemma KeywordKeepsEarlyHits(products: seq<Record>, query: string, render: Record -> string, j: nat)
    requires j < |products| && Mentions(render, products[j], Lower(query))
    requires |Mentioning(products[..j], render, Lower(query))| < Limit
    ensures KeywordReply(products, query, render).DumpList?
    ensures var before := |Mentioning(products[..j], render, Lower(query))|;
      before < |KeywordReply(products, query, render).records| &&
      KeywordReply(products, query, render).records[before] == products[j]
  {
    FilterKeeps(products, p => Mentions(render, p, Lower(query)), j);
  }

  /** Two products the search returns keep their catalogue order. */
  lemma KeywordKeepsOrder(products: seq<Record>, query: string, render: Record -> string, i: nat, j: nat)
      returns (a: nat, b: nat)
    requires KeywordReply(products, query, render).DumpList?
    requires i < j < |KeywordReply(products, query, render).records|
    ensures a < b < |products|
    ensures KeywordReply(products, query, render).records[i] == products[a]
    ensures KeywordReply(products, query, render).records[j] == products[b]
  {
    a, b := FilterOrder(products, p => Mentions(render, p, Lower(query)), i, j);
  }

  /** With every load failed the tools still answer: nothing found, no
      order, no policy. */
  lemma FailedLoadsDegrade(query: string, orderId: string, render: Record -> string, d: string)
    ensures KeywordReply(LoadJson(Failed(d)), query, render) == Text(NoProducts)
    ensures OrderUtils.OrderReply(LoadJson(Failed(d)), OrderUtils.CleanId(orderId)) == Text(OrderUtils.NotFound)
    ensures PolicyUtils.PolicyScan(LoadJson(Failed(d)), query) == PolicyUtils.NoMatch
  {
  }

  /** The module-level state of Backend/STT/ai.py: the three stores, loaded
      once when the module starts and never reassigned. */
  class Database {
    const products: seq<Record>
    const orders: seq<Record>
    const faqs: seq<Record>

    constructor (catalog: Load, orderDb: Load, faqDb: Load)
      ensures products == LoadJson(catalog)
      ensures orders == LoadJson(orderDb)
      ensures faqs == LoadJson(faqDb)
    {
      products := LoadJson(catalog);
      orders := LoadJson(orderDb);
      faqs := LoadJson(faqDb);
    }

    /** Keyword `search_products`: every product whose rendering mentions the
        query is collected, then the first three are returned. */
    method SearchProducts(query: string, render: Record -> string) returns (out: Output)
      ensures out == KeywordReply(products, query, render)
    {
      var lq := Lower(query);
      var results := [];
      for i := 0 to |products|
        invariant results == Mentioning(products[..i], render, lq)
      {
        assert products[..i + 1][..i] == products[..i];
        if Contains(Lower(render(products[i])), lq) {
          results := results + [products[i]];
        }
      }
      assert products[..|products|] == products;
      if results == [] {
        return Text(NoProducts);
      }
      out := DumpList(if |results| <= Limit then results else results[..Limit]);
    }

    /** `check_order`: the same cleaning and first-suffix scan as the
        order tool, over the orders in memory. */
    method CheckOrder(orderId: string) returns (out: Output)
      ensures out == OrderUtils.OrderReply(orders, OrderUtils.CleanId(orderId))
    {
      out := OrderUtils.LookUp(orders, orderId);
    }

    /** `get_policy_answer`: the first matching answer, `None` when nothing
        matches, and the `AttributeError` of a non-text question raised to
        the caller. */
    method GetPolicyAnswer(query: string) returns (r: Call)
      ensures PolicyUtils.PolicyScan(faqs, query).Answered? ==>
        r == Returned(PolicyUtils.PolicyScan(faqs, query).answer)
      ensures PolicyUtils.PolicyScan(faqs, query) == PolicyUtils.NoMatch ==> r == Returned(Null)
      ensures PolicyUtils.PolicyScan(faqs, query).NotText? ==>
        r == Raised(PolicyUtils.PolicyScan(faqs, query).error)
    {
      var s := PolicyUtils.ScanFaqs(faqs, query);
      match s
      case Answered(v) => r := Returned(v);
      case NoMatch => r := Returned(Null);
      case NotText(e) => r := Raised(e);
    }
  }
}
