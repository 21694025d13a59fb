/** The policy tool `get_policy_answer` of Backend/Utils/policy_utils.py:
    the answer of the first FAQ whose question contains the query, letter
    case ignored. */
module PolicyUtils {
  import opened PyText
  import opened Records
  import opened Seqs

  const Apology := "I couldn't find a specific policy regarding that."
  const ErrorPrefix := "Error accessing policy database: "

  /** `q.get('question', '')`. */
  function Question(f: Record): Value {
    Get(f, "question", Str(""))
  }

  /** `q.get('answer')`. */
  function Answer(f: Record): Value {
    Get(f, "answer", Null)
  }

  /** The question is text whose lowered form contains the lowered query. */
  predicate Hits(f: Record, lq: string) {
    Question(f).Str? && Contains(Lower(Question(f).s), lq)
  }

  /** The loop passes over this FAQ: its question is text without the query. */
  predicate Skips(f: Record, lq: string) {
    Question(f).Str? && !Contains(Lower(Question(f).s), lq)
  }

  /** FAQ `k` is the first one the loop does not pass over, and it hits. */
  predicate AnswersAt(faqs: seq<Record>, lq: string, k: int) {
    && 0 <= k < |faqs|
    && Hits(faqs[k], lq)
    && forall j :: 0 <= j < k ==> Skips(faqs[j], lq)
  }

  /** FAQ `k` is the first one the loop does not pass over, and its question
      is not text, so `.lower()` raises on it. */
  predicate RaisesAt(faqs: seq<Record>, lq: string, k: int) {
    && 0 <= k < |faqs|
    && !Question(faqs[k]).Str?
    && forall j :: 0 <= j < k ==> Skips(faqs[j], lq)
  }

  /** How the scan over the FAQs ends: an early return of an answer, the
      fall-through, or an `AttributeError` with its text. */
  datatype Scan = Answered(answer: Value) | NoMatch | NotText(error: string)

  function StopIndex(faqs: seq<Record>, lq: string): nat {
    FirstIndex(faqs, f => !Skips(f, lq))
  }

  /** The scan stops at the first FAQ it does not pass over, so an FAQ that
      answers or raises is that one, and it runs off the end exactly when it
      passes over every FAQ. */
  lemma ScanStops(faqs: seq<Record>, lq: string)
    ensures forall k :: AnswersAt(faqs, lq, k) ==> k == StopIndex(faqs, lq)
    ensures forall k :: RaisesAt(faqs, lq, k) ==> k == StopIndex(faqs, lq)
    ensures StopIndex(faqs, lq) == |faqs| <==> forall j :: 0 <= j < |faqs| ==> Skips(faqs[j], lq)
    ensures StopIndex(faqs, lq) < |faqs| && Question(faqs[StopIndex(faqs, lq)]).Str? ==>
      AnswersAt(faqs, lq, StopIndex(faqs, lq))
    ensures StopIndex(faqs, lq) < |faqs| && !Question(faqs[StopIndex(faqs, lq)]).Str? ==>
      RaisesAt(faqs, lq, StopIndex(faqs, lq))
  {
    var k := StopIndex(faqs, lq);
    if k < |faqs| {
      assert !Skips(faqs[k], lq);
    }
  }

  function PolicyScan(faqs: seq<Record>, query: string): (r: Scan)
    ensures r.Answered? <==> exists k :: AnswersAt(faqs, Lower(query), k)
    ensures forall k :: AnswersAt(faqs, Lower(query), k) ==> r == Answered(Answer(faqs[k]))
    ensures r == NoMatch <==> forall j :: 0 <= j < |faqs| ==> Skips(faqs[j], Lower(query))
    ensures r.NotText? <==> exists k :: RaisesAt(faqs, Lower(query), k)
    ensures forall k :: RaisesAt(faqs, Lower(query), k) ==> r == NotText(NoLowerText(Question(faqs[k])))
  {
    var lq := Lower(query);
    ScanStops(faqs, lq);
    var k := StopIndex(faqs, lq);
    if k == |faqs| then
      NoMatch
    else if Question(faqs[k]).Str? then
      assert AnswersAt(faqs, lq, k);
      Answered(Answer(faqs[k]))
    else
      assert RaisesAt(faqs, lq, k);
      NotText(NoLowerText(Question(faqs[k])))
  }

  /** The loop of `get_policy_answer` over the loaded FAQs. */
  method ScanFaqs(faqs: seq<Record>, query: string) returns (r: Scan)
    ensures r == PolicyScan(faqs, query)
  {
    var lq := Lower(query);
    for i := 0 to |faqs|
      invariant forall j :: 0 <= j < i ==> Skips(faqs[j], lq)
    {
      var question := Question(faqs[i]);
      if !question.Str? {
        assert RaisesAt(faqs, lq, i);
        return NotText(NoLowerText(question));
      }
      if Contains(Lower(question.s), lq) {
        assert AnswersAt(faqs, lq, i);
        return Answered(Answer(faqs[i]));
      }
    }
    return NoMatch;
  }

  /** `get_policy_answer`: every exception, from loading or from the scan,
      becomes the error sentence. */
  method GetPolicyAnswer(db: Load, query: string) returns (answer: Value)
    ensures db.Failed? ==> answer == Str(ErrorPrefix + db.detail)
    ensures db.Loaded? && PolicyScan(db.records, query).Answered? ==>
      answer == PolicyScan(db.records, query).answer
    ensures db.Loaded? && PolicyScan(db.records, query) == NoMatch ==> answer == Str(Apology)
    ensures db.Loaded? && PolicyScan(db.records, query).NotText? ==>
      answer == Str(ErrorPrefix + PolicyScan(db.records, query).error)
  {
    match db
    case Failed(detail) =>
      answer := Str(ErrorPrefix + detail);
    case Loaded(faqs) =>
      var r := ScanFaqs(faqs, query);
      match r
      case Answered(v) => answer := v;
      case NoMatch => answer := Str(Apology);
      case NotText(e) => answer := Str(ErrorPrefix + e);
  }

  /** Changing the letter case of the query changes nothing. */
  lemma PolicyIgnoresCase(faqs: seq<Record>, query: string)
    ensures PolicyScan(faqs, Upper(query)) == PolicyScan(faqs, query)
    ensures PolicyScan(faqs, Lower(query)) == PolicyScan(faqs, query)
  {
    LowerForgetsCase(query);
  }

  /** An FAQ without a `question` is read as "", which contains only the
      empty query. */
  lemma MissingQuestionHitsOnlyEmpty(f: Record, lq: string)
    requires "question" !in f
    ensures Hits(f, lq) <==> lq == ""
  {
    if lq == "" {
      assert OccursAt(Lower(""), lq, 0);
    }
  }

  /** The empty query is contained in any question, so the first FAQ of a
      non-empty store answers, unless its question is not text. */
  lemma EmptyQueryAnswersFirst(faqs: seq<Record>)
    requires faqs != [] && Question(faqs[0]).Str?
    ensures PolicyScan(faqs, "") == Answered(Answer(faqs[0]))
  {
    assert OccursAt(Lower(Question(faqs[0]).s), "", 0);
    assert AnswersAt(faqs, Lower(""), 0);
  }

  /** A first match that has no `answer` gives `None`, not the apology. */
  lemma MissingAnswerGivesNone(faqs: seq<Record>, query: string, k: nat)
    requires AnswersAt(faqs, Lower(query), k)
    requires "answer" !in faqs[k]
    ensures PolicyScan(faqs, query) == Answered(Null)
  {
  }

  /** A store whose questions are all text never raises. */
  lemma TextQuestionsNeverRaise(faqs: seq<Record>, query: string)
    requires forall j :: 0 <= j < |faqs| ==> Question(faqs[j]).Str?
    ensures !PolicyScan(faqs, query).NotText?
  {
  }

  /** A question that contains the query verbatim is found, whatever
      letter case either is written in: the first FAQ answers. */
  lemma VerbatimQueryAnswersFirst(faqs: seq<Record>, query: string)
    requires faqs != [] && Question(faqs[0]).Str?
    requires Contains(Question(faqs[0]).s, query)
    ensures PolicyScan(faqs, query) == Answered(Answer(faqs[0]))
  {
    LowerKeepsContains(Question(faqs[0]).s, query);
    assert AnswersAt(faqs, Lower(query), 0);
  }
}
