/** The order tool `check_order` of Backend/Utils/order_utils.py: clean the
    id the caller gives, then return the first stored order whose
    `order_id` ends with it. */
module OrderUtils {
  import opened PyText
  import opened Records
  import opened Seqs

  const Prefix := "ORD-"
  const NotFound := "Order ID not found."
  const ErrorPrefix := "Error accessing order database: "

  /** `str(order_id).replace("ORD-", "").strip()`. */
  function CleanId(orderId: string): string {
    Strip(RemoveAll(orderId, Prefix))
  }

  /** The text an order is compared by: `str(o.get('order_id', ''))`. */
  function OrderIdText(o: Record): string {
    PyStr(Get(o, "order_id", Str("")))
  }

  predicate Matches(o: Record, cleanId: string) {
    EndsWith(OrderIdText(o), cleanId)
  }

  /** Order `k` matches and no earlier order does. */
  predicate IsFirstMatch(orders: seq<Record>, cleanId: string, k: int) {
    && 0 <= k < |orders|
    && Matches(orders[k], cleanId)
    && forall j :: 0 <= j < k ==> !Matches(orders[j], cleanId)
  }

  function FirstMatch(orders: seq<Record>, cleanId: string): nat {
    FirstIndex(orders, o => Matches(o, cleanId))
  }

  /** What the scan over the loaded orders returns for a cleaned id. */
  function OrderReply(orders: seq<Record>, cleanId: string): (r: Output)
    ensures r.DumpRecord? ==> exists k :: IsFirstMatch(orders, cleanId, k) && r.record == orders[k]
    ensures forall k :: IsFirstMatch(orders, cleanId, k) ==> r == DumpRecord(orders[k])
    ensures !r.DumpRecord? ==> r == Text(NotFound)
    ensures r == Text(NotFound) <==> forall j :: 0 <= j < |orders| ==> !Matches(orders[j], cleanId)
  {
    var k := FirstMatch(orders, cleanId);
    if k < |orders| then
      assert IsFirstMatch(orders, cleanId, k);
      DumpRecord(orders[k])
    else
      Text(NotFound)
  }

  /** The loop of `check_order` over the loaded orders, with its early
      return on the first match. */
  method LookUp(orders: seq<Record>, orderId: string) returns (out: Output)
    ensures out == OrderReply(orders, CleanId(orderId))
  {
    var cleanId := CleanId(orderId);
    var i := 0;
    while i < |orders|
      invariant 0 <= i <= |orders|
      invariant forall j :: 0 <= j < i ==> !Matches(orders[j], cleanId)
    {
      if Matches(orders[i], cleanId) {
        assert IsFirstMatch(orders, cleanId, i);
        return DumpRecord(orders[i]);
      }
      i := i + 1;
    }
    return Text(NotFound);
  }

  /** `check_order`: a failure to read or parse the order file becomes the
      error sentence; otherwise the loaded orders are scanned. */
  method CheckOrder(db: Load, orderId: string) returns (out: Output)
    ensures db.Failed? ==> out == Text(ErrorPrefix + db.detail)
    ensures db.Loaded? ==> out == OrderReply(db.records, CleanId(orderId))
  {
    match db
    case Failed(detail) =>
      out := Text(ErrorPrefix + detail);
    case Loaded(orders) =>
      out := LookUp(orders, orderId);
  }

  /** Removal splits at every occurrence of "ORD-": what lies before it and
      what lies after it are cleaned on their own, so every occurrence goes,
      not only a leading one. It holds because no proper prefix of "ORD-" is
      also a suffix of it, so a removal never straddles the occurrence. */
  lemma {:induction false} RemoveAllSplits(a: string, b: string)
    ensures RemoveAll(a + Prefix + b, Prefix) == RemoveAll(a, Prefix) + RemoveAll(b, Prefix)
    decreases |a|
  {
    if a == [] {
      assert a + Prefix + b == Prefix + b;
      RemoveAllLeading(Prefix, b);
    } else if |a| >= |Prefix| && a[..|Prefix|] == Prefix {
      RemoveAllSplits(a[|Prefix|..], b);
      SplitPastOccurrence(a, b);
    } else {
      RemoveAllSplits(a[1..], b);
      SplitPastCharacter(a, b);
    }
  }

  /** The step of `RemoveAllSplits` where `a` starts with "ORD-": both sides
      delete it first. */
  lemma {:induction false} SplitPastOccurrence(a: string, b: string)
    requires |a| >= |Prefix| && a[..|Prefix|] == Prefix
    requires RemoveAll(a[|Prefix|..] + Prefix + b, Prefix)
      == RemoveAll(a[|Prefix|..], Prefix) + RemoveAll(b, Prefix)
    ensures RemoveAll(a + Prefix + b, Prefix) == RemoveAll(a, Prefix) + RemoveAll(b, Prefix)
  {
    assert (a + Prefix + b)[..|Prefix|] == a[..|Prefix|];
    DropFromJoin(a, Prefix, b, |Prefix|);
  }

  /** The step of `RemoveAllSplits` where `a` does not start with "ORD-":
      both sides keep `a[0]` and go on with `a[1..]`. */
  lemma {:induction false} SplitPastCharacter(a: string, b: string)
    requires a != [] && !(|a| >= |Prefix| && a[..|Prefix|] == Prefix)
    requires RemoveAll(a[1..] + Prefix + b, Prefix) == RemoveAll(a[1..], Prefix) + RemoveAll(b, Prefix)
    ensures RemoveAll(a + Prefix + b, Prefix) == RemoveAll(a, Prefix) + RemoveAll(b, Prefix)
  {
    ShiftPastNonOccurrence(a, b);
    KeptFirstCharacter(a, b, Prefix);
  }

  /** Joining the pieces once the removal has kept `a[0]` on both sides;
      stated for any pattern so that the solver does not look inside "ORD-". */
  lemma {:induction false} KeptFirstCharacter(a: string, b: string, pat: string)
    requires a != []
    requires RemoveAll(a + pat + b, pat) == [a[0]] + RemoveAll((a + pat + b)[1..], pat)
    requires RemoveAll(a, pat) == [a[0]] + RemoveAll(a[1..], pat)
    requires RemoveAll(a[1..] + pat + b, pat) == RemoveAll(a[1..], pat) + RemoveAll(b, pat)
    ensures RemoveAll(a + pat + b, pat) == RemoveAll(a, pat) + RemoveAll(b, pat)
  {
    DropFromJoin(a, pat, b, 1);
  }

  /** Dropping `k` characters from `a + pat + b` drops them from `a`. */
  lemma DropFromJoin(a: string, pat: string, b: string, k: nat)
    requires k <= |a|
    ensures (a + pat + b)[k..] == a[k..] + pat + b
  {
  }

  /** When `a` does not start with "ORD-", neither does `a + "ORD-" + b`:
      an occurrence starting inside a shorter `a` would need an 'O' inside
      "ORD-". So the removal keeps the first character of both. */
  lemma {:induction false} ShiftPastNonOccurrence(a: string, b: string)
    requires a != [] && !(|a| >= |Prefix| && a[..|Prefix|] == Prefix)
    ensures RemoveAll(a + Prefix + b, Prefix) == [a[0]] + RemoveAll((a + Prefix + b)[1..], Prefix)
    ensures RemoveAll(a, Prefix) == [a[0]] + RemoveAll(a[1..], Prefix)
  {
    var s := a + Prefix + b;
    if |a| >= |Prefix| {
      assert s[..|Prefix|] == a[..|Prefix|];
    } else {
      assert s[|a|] == 'O' != Prefix[|a|];
      assert s[..|Prefix|][|a|] == s[|a|];
      assert RemoveAll(a, Prefix) == a;
      assert RemoveAll(a[1..], Prefix) == a[1..];
      assert [a[0]] + a[1..] == a;
    }
  }

  /** "ORD-1042" and "1042" are looked up alike, whatever the store holds. */
  lemma PrefixedIdLooksUpAlike(orders: seq<Record>, id: string)
    ensures OrderReply(orders, CleanId(Prefix + id)) == OrderReply(orders, CleanId(id))
  {
    RemoveAllLeading(Prefix, id);
  }

  /** An order without an `order_id` is compared as "", so only the empty
      cleaned id matches it. */
  lemma MissingOrderIdMatchesOnlyEmpty(o: Record, cleanId: string)
    requires "order_id" !in o
    ensures Matches(o, cleanId) <==> cleanId == ""
  {
  }

  /** An empty cleaned id matches every order, so the first one is returned. */
  lemma EmptyIdGivesFirstOrder(orders: seq<Record>, orderId: string)
    requires CleanId(orderId) == ""
    requires orders != []
    ensures OrderReply(orders, CleanId(orderId)) == DumpRecord(orders[0])
  {
    assert IsFirstMatch(orders, "", 0);
  }

  /** An id made of whitespace only is cleaned to "". */
  lemma {:induction false} BlankIdIsEmpty(orderId: string)
    requires forall k :: 0 <= k < |orderId| ==> IsSpace(orderId[k])
    ensures CleanId(orderId) == ""
  {
    forall i | 0 <= i <= |orderId| - |Prefix|
      ensures !OccursAt(orderId, Prefix, i)
    {
      assert IsSpace(orderId[i]);
      assert orderId[i..i + |Prefix|][0] == orderId[i];
    }
    RemoveAllAbsent(orderId, Prefix);
  }

  /** Every occurrence of "ORD-" goes, not only a leading one. */
  lemma InnerPrefixRemoved()
    ensures CleanId("ORD-10ORD-42") == "1042"
  {
    BothOccurrencesRemoved();
    StripsNothing("1042");
  }

  /** The removal step of `InnerPrefixRemoved`, split at each occurrence. */
  lemma BothOccurrencesRemoved()
    ensures RemoveAll("ORD-10ORD-42", Prefix) == "1042"
  {
    assert "ORD-10ORD-42" == "ORD-10" + Prefix + "42";
    RemoveAllSplits("ORD-10", "42");
    RemoveAllLeading(Prefix, "10");
    assert Prefix + "10" == "ORD-10";
    assert RemoveAll("10", Prefix) == "10" && RemoveAll("42", Prefix) == "42";
  }

  /** The removal is one pass: deleting an inner "ORD-" can bring the
      letters around it together into a new "ORD-", which stays. */
  lemma RemovalIsOnePass()
    ensures CleanId("ORORD-D-7") == "ORD-7"
  {
    assert "ORORD-D-7" == "OR" + Prefix + "D-7";
    RemoveAllSplits("OR", "D-7");
    assert RemoveAll("OR", Prefix) + RemoveAll("D-7", Prefix) == "ORD-7";
    StripsNothing("ORD-7");
  }

  /** A text that neither starts nor ends with whitespace is left as it is
      by `strip`. */
  lemma StripsNothing(s: string)
    requires s != [] && !IsSpace(s[0]) && !IsSpace(s[|s| - 1])
    ensures Strip(s) == s
  {
    assert LeadingSpace(s) == 0 && TextEnd(s) == |s|;
    assert s[0..|s|] == s;
  }

  /** The bare prefix is cleaned to "", so it matches the first order. */
  lemma BarePrefixIsEmpty()
    ensures CleanId("ORD-") == ""
  {
    var s := "ORD-";
    assert s[..4] == Prefix && s[4..] == "";
  }
}
