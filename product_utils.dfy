/** The fuzzy product tool `search_products` of
    Backend/Utils/product_utils.py: score every product name against the
    query, keep the best three, drop those below 65, and return the
    matching catalogue records tagged with their score. */
module ProductUtils {
  import opened PyText
  import opened Records
  import opened Seqs

  const EmptyCatalog := "The product catalog is currently empty."
  const Placeholder := "Unknown Product"
  const Threshold := 65
  const Limit := 3
  const ErrorPrefix := "Database access error: "

  function NoMatches(query: string): string {
    "I couldn't find any products matching '" + query + "'."
  }

  /** `[p.get('name', 'Unknown Product') for p in products]`. */
  function CandidateNames(products: seq<Record>): seq<Value> {
    seq(|products|, i requires 0 <= i < |products| => Get(products[i], "name", Str(Placeholder)))
  }

  /** One `(name, score)` pair of the extractor's ranked list. */
  datatype Match = Match(name: Value, score: int)

  predicate Ranked(ms: seq<Match>) {
    forall i, j :: 0 <= i < j < |ms| ==> ms[i].score >= ms[j].score
  }

  /** What `process.extract(query, names, limit=3, scorer=fuzz.partial_ratio)`
      is taken to return: at most three candidates, none of them `None`, each
      with the score `scorer` gives it (between 0 and 100), best first. Ties
      and the choice among equal scores are left open. */
  predicate IsExtraction(scorer: (string, Value) -> int, query: string, names: seq<Value>, ms: seq<Match>) {
    && |ms| <= Limit
    && (forall k :: 0 <= k < |ms| ==> ms[k].name in names && ms[k].name != Null)
    && (forall k :: 0 <= k < |ms| ==> ms[k].score == scorer(query, ms[k].name) && 0 <= ms[k].score <= 100)
    && Ranked(ms)
  }

  /** `p.get('name') == name`. */
  predicate NamedAs(p: Record, name: Value) {
    Get(p, "name", Null) == name
  }

  /** Product `k` is the first one named `name`. */
  predicate IsFirstNamed(products: seq<Record>, name: Value, k: int) {
    && 0 <= k < |products|
    && NamedAs(products[k], name)
    && forall j :: 0 <= j < k ==> !NamedAs(products[j], name)
  }

  /** `next((p for p in products if p.get('name') == name), None)`, as an
      index: `|products|` stands for `None`. */
  function FirstNamed(products: seq<Record>, name: Value): nat {
    FirstIndex(products, p => NamedAs(p, name))
  }

  /** The match clears the threshold and `product_obj` is a non-empty dict. */
  predicate Survives(products: seq<Record>, m: Match) {
    && m.score >= Threshold
    && FirstNamed(products, m.name) < |products|
    && products[FirstNamed(products, m.name)] != map[]
  }

  /** `f"{score}%"`. */
  function Confidence(score: int): string {
    IntText(score) + "%"
  }

  /** The found record with `match_confidence` set. */
  function Annotated(products: seq<Record>, m: Match): Record
    requires Survives(products, m)
  {
    products[FirstNamed(products, m.name)]["match_confidence" := Str(Confidence(m.score))]
  }

  /** `final_results` once the loop has consumed `ms`. */
  function FinalResults(products: seq<Record>, ms: seq<Match>): (rs: seq<Record>)
    ensures |rs| == |Surviving(products, ms)| <= |ms|
  {
    if ms == [] then []
    else
      var rs := FinalResults(products, ms[..|ms| - 1]);
      var m := ms[|ms| - 1];
      if Survives(products, m) then rs + [Annotated(products, m)] else rs
  }

  /** The ranked matches that survive, in ranked order. */
  function Surviving(products: seq<Record>, ms: seq<Match>): seq<Match> {
    Filter(ms, m => Survives(products, m))
  }

  /** What `search_products` returns once the catalogue is loaded and the
      extractor has ranked its names into `ms`. */
  function SearchReply(products: seq<Record>, query: string, ms: seq<Match>): Output {
    if products == [] then Text(EmptyCatalog)
    else
      var rs := FinalResults(products, ms);
      if rs == [] then Text(NoMatches(query)) else DumpList(rs)
  }

  /** The loop over the ranked matches that builds `final_results`. */
  method Collect(products: seq<Record>, ms: seq<Match>) returns (results: seq<Record>)
    ensures results == FinalResults(products, ms)
  {
    results := [];
    for k := 0 to |ms|
      invariant results == FinalResults(products, ms[..k])
    {
      assert ms[..k + 1][..k] == ms[..k];
      var m := ms[k];
      if m.score >= Threshold {
        var i := FirstNamed(products, m.name);
        if i < |products| && products[i] != map[] {
          results := results + [products[i]["match_confidence" := Str(Confidence(m.score))]];
        }
      }
    }
    assert ms[..|ms|] == ms;
  }

  /** `search_products`, given the ranked list the extractor returned for
      this call: a failure to read or parse the catalogue becomes the error
      sentence. */
  method SearchProducts(db: Load, query: string, ms: seq<Match>) returns (out: Output)
    ensures db.Failed? ==> out == Text(ErrorPrefix + db.detail)
    ensures db.Loaded? ==> out == SearchReply(db.records, query, ms)
  {
    match db
    case Failed(detail) =>
      out := Text(ErrorPrefix + detail);
    case Loaded(products) =>
      if products == [] {
        return Text(EmptyCatalog);
      }
      var results := Collect(products, ms);
      if results == [] {
        return Text(NoMatches(query));
      }
      out := DumpList(results);
  }

  /** The i-th result is the i-th surviving match's record, annotated. */
  lemma {:induction false} ResultsAreAnnotatedSurvivors(products: seq<Record>, ms: seq<Match>)
    ensures forall i :: 0 <= i < |Surviving(products, ms)| ==>
      Survives(products, Surviving(products, ms)[i]) &&
      FinalResults(products, ms)[i] == Annotated(products, Surviving(products, ms)[i])
  {
    if ms != [] {
      ResultsAreAnnotatedSurvivors(products, ms[..|ms| - 1]);
    }
  }

  /** A ranked match survives exactly when it scores at least 65 and names a
      non-empty catalogue record; everything below 65 is dropped. */
  lemma SurvivorsAreThoseAboveThreshold(products: seq<Record>, ms: seq<Match>, m: Match)
    ensures m in Surviving(products, ms) <==> m in ms && Survives(products, m)
    ensures m.score < Threshold ==> m !in Surviving(products, ms)
  {
    if m in ms && Survives(products, m) {
      var i :| 0 <= i < |ms| && ms[i] == m;
      assert ms[i] in Surviving(products, ms);
    }
  }

  /** No more than three records come back. */
  lemma AtMostThree(scorer: (string, Value) -> int, query: string, products: seq<Record>, ms: seq<Match>)
    requires IsExtraction(scorer, query, CandidateNames(products), ms)
    ensures SearchReply(products, query, ms).DumpList? ==>
      1 <= |SearchReply(products, query, ms).records| <= Limit
  {
  }

  /** `t` is a decimal number of at least `bound`, followed by "%". */
  predicate ShowsPercentAtLeast(t: string, bound: nat) {
    && |t| >= 2
    && t[|t| - 1] == '%'
    && (forall k :: 0 <= k < |t| - 1 ==> IsDigit(t[k]))
    && DigitsValue(t[..|t| - 1]) >= bound
  }

  /** Each result carries `match_confidence`, a percentage of at least 65. */
  lemma ConfidenceAtLeastThreshold(products: seq<Record>, ms: seq<Match>, i: nat)
    requires i < |FinalResults(products, ms)|
    ensures "match_confidence" in FinalResults(products, ms)[i]
    ensures FinalResults(products, ms)[i]["match_confidence"].Str?
    ensures ShowsPercentAtLeast(FinalResults(products, ms)[i]["match_confidence"].s, Threshold)
  {
    ResultsAreAnnotatedSurvivors(products, ms);
    var m := Surviving(products, ms)[i];
    DecimalRoundTrip(m.score);
    var t := Confidence(m.score);
    assert t[..|t| - 1] == Decimal(m.score);
  }

  /** Each result is the first catalogue record carrying the matched name,
      with only `match_confidence` set. */
  lemma ResultIsFirstByName(products: seq<Record>, ms: seq<Match>, i: nat) returns (k: nat)
    requires i < |FinalResults(products, ms)|
    ensures IsFirstNamed(products, Surviving(products, ms)[i].name, k)
    ensures FinalResults(products, ms)[i]
      == products[k]["match_confidence" := Str(Confidence(Surviving(products, ms)[i].score))]
  {
    ResultsAreAnnotatedSurvivors(products, ms);
    k := FirstNamed(products, Surviving(products, ms)[i].name);
  }

  /** A product without a `name` is never returned: its placeholder
      candidate finds no record, and every returned record keeps the
      (non-`None`) name it was matched by. */
  lemma NamelessNeverReturned(scorer: (string, Value) -> int, query: string, products: seq<Record>,
                              ms: seq<Match>, i: nat)
    requires IsExtraction(scorer, query, CandidateNames(products), ms)
    requires i < |FinalResults(products, ms)|
    ensures "name" in FinalResults(products, ms)[i]
    ensures FinalResults(products, ms)[i]["name"] == Surviving(products, ms)[i].name != Null
  {
    ResultsAreAnnotatedSurvivors(products, ms);
    var m := Surviving(products, ms)[i];
    assert m in ms;
  }

  /** Results come in the extractor's ranked order: confidence never rises. */
  lemma RankedOrderKept(scorer: (string, Value) -> int, query: string, products: seq<Record>,
                        ms: seq<Match>, i: nat, j: nat)
    requires IsExtraction(scorer, query, CandidateNames(products), ms)
    requires i < j < |FinalResults(products, ms)|
    ensures Surviving(products, ms)[i].score >= Surviving(products, ms)[j].score
  {
    ResultsAreAnnotatedSurvivors(products, ms);
    var a, b := FilterOrder(ms, m => Survives(products, m), i, j);
  }

  /** When nothing clears the threshold a non-empty catalogue answers with
      the not-found sentence, never with an empty list. */
  lemma BelowThresholdNotFound(products: seq<Record>, query: string, ms: seq<Match>)
    requires products != []
    requires forall k :: 0 <= k < |ms| ==> ms[k].score < Threshold
    ensures SearchReply(products, query, ms) == Text(NoMatches(query))
  {
    ResultsAreAnnotatedSurvivors(products, ms);
    if Surviving(products, ms) != [] {
      var m := Surviving(products, ms)[0];
      SurvivorsAreThoseAboveThreshold(products, ms, m);
    }
  }

  /** Two surviving matches of one name give the same record: the scorer
      scores a name once, so setting `match_confidence` on the one shared
      dict twice leaves what each copy here holds. */
  lemma SameNameSameRecord(scorer: (string, Value) -> int, query: string, products: seq<Record>,
                           m1: Match, m2: Match)
    requires Survives(products, m1) && Survives(products, m2)
    requires m1.score == scorer(query, m1.name) && m2.score == scorer(query, m2.name)
    requires m1.name == m2.name
    ensures Annotated(products, m1) == Annotated(products, m2)
  {
  }

  /** "Sony WH-1000XM4" matched at 100 comes back as "100%". */
  lemma SonyExample()
    ensures SearchReply([map["name" := Str("Sony WH-1000XM4")]], "sony", [Match(Str("Sony WH-1000XM4"), 100)])
      == DumpList([map["name" := Str("Sony WH-1000XM4"), "match_confidence" := Str("100%")]])
  {
    var products := [map["name" := Str("Sony WH-1000XM4")]];
    var m := Match(Str("Sony WH-1000XM4"), 100);
    assert NamedAs(products[0], m.name);
    assert FirstNamed(products, m.name) == 0;
    assert Survives(products, m);
    assert Decimal(100) == "100" by {
      assert Decimal(1) == "1";
      assert Decimal(10) == "10";
    }
    assert Confidence(100) == "100%";
    assert [m][..0] == [];
    assert FinalResults(products, [m]) == [Annotated(products, m)];
  }
}
