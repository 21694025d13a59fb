# Store-assistant lookup tools, modelled in Dafny

The voice-assistant backend answers customer questions by letting a hosted
language model call local "tools" that look things up in small JSON stores.
`Backend/ai.py:14` registers all three below; `Backend/STT/ai.py:70`
registers only the product search and the order lookup:

- **order lookup** (`check_order`): removes every `"ORD-"` from the given id
  and strips whitespace. It returns the first stored order whose `order_id`,
  as text, ends with the result, or `"Order ID not found."`;
- **policy lookup** (`get_policy_answer`): returns the answer of the first FAQ
  whose question contains the query, ignoring letter case. When nothing
  matches it gives a fixed apology (the `Backend/Utils` variant) or `None`
  (the `Backend/STT` variant);
- **product search** (`search_products`), in two variants:
  - a fuzzy one (`Backend/Utils`): top three names by score, those scoring at
    least 65 kept, each returned record tagged with `match_confidence`;
  - a keyword one (`Backend/STT`): the first three products whose lowered text
    contains the lowered query.

The `Backend/Utils` tools read their JSON file on every call and turn any
failure into an error sentence: a fixed prefix followed by the exception's
text. `Backend/STT/ai.py` loads its three
stores once, when the module starts; a failed load leaves a store empty.

Modules:

- `PyText` (pytext.dfy): the Python string operations the tools use:
  - `isspace` and `strip`;
  - `replace(pat, "")` as one left-to-right pass;
  - `endswith` and the `in` test;
  - `lower` and `upper` on ASCII letters;
  - `str` of an integer.
- `Seqs` (seqs.dfy): a first-match scan (`FirstIndex`) and an order-keeping
  filter (`Filter`), with their lemmas.
- `Records` (records.dfy): the data.
  - `Value` is a JSON value as Python holds it. `Null` is `None`. `Other`
    covers floats, lists and nested objects by their type name and `str()`
    text.
  - `Record` is a dict (`map<string, Value>`).
  - `Load` is the outcome of opening and parsing a store file.
  - `Output` is what a tool returns as text: `json.dumps` of a record, of a
    list, or a sentence.
  - `Call` is a return or a raised exception.
- `OrderUtils`, `PolicyUtils`, `ProductUtils`: one module per file of
  `Backend/Utils`. Each has a specification function, a method with the
  source's loop proved equal to it, a method for the whole tool (its
  `try`/`except` included), and lemmas.
- `SttAssistant` (stt_assistant.dfy): `Backend/STT/ai.py`.
  - `load_json` and the keyword search with its lemmas.
  - A class `Database` whose `const` fields are the three module-level
    stores. Its three lookup methods have no `modifies` clause, so they
    cannot change the stores.
  - Its `check_order` and `get_policy_answer` run the same loops as the
    `Backend/Utils` versions, so they reuse `OrderUtils.LookUp` and
    `PolicyUtils.ScanFaqs`.

Outside the model's control, handled as inputs:

- **Store files.** A store is a `Load` value, either the parsed records or
  `Failed(detail)`, where `detail` is the exception's text.
- **The fuzzy scorer.** The ranked `(name, score)` list that
  `process.extract` returned is a parameter, `ms`. What the model assumes
  about it is the predicate `ProductUtils.IsExtraction`:
  - at most three entries;
  - each name is one of the candidate names and is not `None`;
  - each score is what the `scorer` function gives that name, between 0
    and 100;
  - best first.
- **Python's `str` of a dict.** The keyword search takes it as a parameter,
  `render`.

Points where the code does something a reader might not expect:

- `check_order` removes every `"ORD-"` from the id, not only a leading one.
  The comment at `Backend/STT/ai.py:51` speaks of stripping `"ORD-"` or
  `"Order"`; the code removes only `"ORD-"`.
- The `Backend/STT` `get_policy_answer` does not catch exceptions. When a
  FAQ whose `question` is not a string comes before any match, the
  `AttributeError` from `.lower()` reaches the caller. `Backend/STT/ai.py:70`
  does not register it as a tool, and no other file cited here calls it;
  the `main` module that `Backend/STT/server.py:3` imports is not part of
  this model, so a caller there is not ruled out. The `Backend/Utils`
  variant turns the same case into its error sentence.
- The fuzzy search's error sentence starts `"Database access error: "`,
  unlike the `"Error accessing ... database: "` of the other two tools.

The candidate-name list of the fuzzy search, `ProductUtils.CandidateNames`,
is a plain definition. Its entry `i` is product `i`'s `name`, or
`"Unknown Product"` when that product has none.

## Model

| member | source | states |
|---|---|---|
| `PyText.Strip` | Backend/Utils/order_utils.py:11 | the result sits inside the input with only whitespace around it, neither starts nor ends with whitespace, and is empty exactly when the input is all whitespace |
| `PyText.RemoveAllLeading` | Backend/Utils/order_utils.py:11 | removing `"ORD-"` from `"ORD-" + s` gives the same as removing it from `s` |
| `PyText.RemoveAllAbsent` | Backend/Utils/order_utils.py:11 | a text without an occurrence of the pattern comes back unchanged |
| `PyText.LowerForgetsCase` | Backend/Utils/policy_utils.py:12 | lowering is idempotent and forgets any upper-casing |
| `PyText.LowerKeepsContains` | Backend/Utils/policy_utils.py:12 | if `sub in s` then `sub.lower() in s.lower()` |
| `PyText.Decimal` | Backend/Utils/product_utils.py:32 | `str(n)` is a non-empty string of digits without a leading zero |
| `PyText.DecimalRoundTrip` | Backend/Utils/product_utils.py:32 | reading the digits of `str(n)` back gives `n` |
| `Seqs.FirstIndex` | Backend/Utils/order_utils.py:12-14 | the scan stops at an element passing the test with none before it, or reports that none passes |
| `Seqs.Filter` | Backend/STT/ai.py:38-42 | the collected elements all pass the test and come from the sequence, and every element that passes is collected |
| `Seqs.FilterKeeps` | Backend/STT/ai.py:38-42 | every passing position is collected, repeats included: the element at position `j` follows exactly what the positions before `j` collect |
| `Seqs.FilterOrder` | Backend/STT/ai.py:38-42 | two collected elements keep their relative order in the source sequence |
| `Seqs.FilterPrefix` | Backend/STT/ai.py:47 | the first `k` collected elements are exactly what scanning some prefix collects |
| `OrderUtils.OrderReply` | Backend/Utils/order_utils.py:12-15 | returns the first order whose `order_id` text ends with the cleaned id, which no earlier order does; otherwise exactly `"Order ID not found."`, and that happens exactly when no order matches |
| `OrderUtils.LookUp` | Backend/Utils/order_utils.py:11-15 | the loop with its early return gives the same as the specification for the cleaned id |
| `OrderUtils.CheckOrder` | Backend/Utils/order_utils.py:4-17 | a load failure gives `"Error accessing order database: "` and its text; otherwise the scan of the loaded orders |
| `OrderUtils.RemoveAllSplits` | Backend/Utils/order_utils.py:11 | removing `"ORD-"` from `a + "ORD-" + b` gives the removal from `a` followed by the removal from `b`, for all `a` and `b`: every occurrence goes, not only a leading one |
| `OrderUtils.PrefixedIdLooksUpAlike` | Backend/Utils/order_utils.py:11-14 | `"ORD-" + id` and `id` give the same result for any store |
| `OrderUtils.MissingOrderIdMatchesOnlyEmpty` | Backend/Utils/order_utils.py:13 | an order without `order_id` matches exactly when the cleaned id is empty |
| `OrderUtils.EmptyIdGivesFirstOrder` | Backend/Utils/order_utils.py:11-14 | an empty cleaned id returns the first order of a non-empty store |
| `OrderUtils.BlankIdIsEmpty` | Backend/Utils/order_utils.py:11 | an id of whitespace only is cleaned to the empty id |
| `OrderUtils.BarePrefixIsEmpty` | Backend/Utils/order_utils.py:11 | `"ORD-"` is cleaned to the empty id |
| `OrderUtils.InnerPrefixRemoved` | Backend/Utils/order_utils.py:11 | an inner `"ORD-"` is removed too: `"ORD-10ORD-42"` becomes `"1042"` |
| `OrderUtils.RemovalIsOnePass` | Backend/Utils/order_utils.py:11 | the removal is not repeated: `"ORORD-D-7"` becomes `"ORD-7"` |
| `PolicyUtils.PolicyScan` | Backend/Utils/policy_utils.py:11-14 | answers with the `answer` (or `None`) of the first FAQ whose lowered question contains the lowered query, when all earlier questions are texts without it; no match exactly when every question is a text without it; raises on the first non-text question reached before a match |
| `PolicyUtils.ScanStops` | Backend/Utils/policy_utils.py:11-13 | the scan stops at the first FAQ it does not pass over: an FAQ that answers or raises is that one, and it runs off the end exactly when it passes over every FAQ |
| `PolicyUtils.ScanFaqs` | Backend/Utils/policy_utils.py:11-14 | the loop with its early returns gives the same as the specification |
| `PolicyUtils.GetPolicyAnswer` | Backend/Utils/policy_utils.py:4-16 | the first match's answer; exactly `"I couldn't find a specific policy regarding that."` when nothing matches; `"Error accessing policy database: "` and the exception's text on a load failure or a non-text question |
| `PolicyUtils.PolicyIgnoresCase` | Backend/Utils/policy_utils.py:12 | upper- or lower-casing the query does not change the result |
| `PolicyUtils.MissingQuestionHitsOnlyEmpty` | Backend/Utils/policy_utils.py:12 | an FAQ without `question` matches exactly the empty query |
| `PolicyUtils.EmptyQueryAnswersFirst` | Backend/Utils/policy_utils.py:11-13 | the empty query answers with the first FAQ of a non-empty store whose first question is text |
| `PolicyUtils.VerbatimQueryAnswersFirst` | Backend/Utils/policy_utils.py:11-13 | a first question that contains the query verbatim answers, whatever the letter case |
| `PolicyUtils.MissingAnswerGivesNone` | Backend/Utils/policy_utils.py:13 | a first match without `answer` gives `None`, not the apology |
| `PolicyUtils.TextQuestionsNeverRaise` | Backend/Utils/policy_utils.py:12 | a store whose questions are all text never reaches the error path |
| `ProductUtils.FinalResults` | Backend/Utils/product_utils.py:25-33 | one result per surviving match, so never more results than ranked matches |
| `ProductUtils.Collect` | Backend/Utils/product_utils.py:25-33 | the loop appending to `final_results` gives the specification's results |
| `ProductUtils.SearchProducts` | Backend/Utils/product_utils.py:5-41 | a load failure gives `"Database access error: "` and its text; otherwise the reply for the loaded catalogue: empty-catalogue sentence, not-found sentence with the query, or the results |
| `ProductUtils.ResultsAreAnnotatedSurvivors` | Backend/Utils/product_utils.py:26-33 | result `i` is the record found for surviving match `i` with `match_confidence` set |
| `ProductUtils.SurvivorsAreThoseAboveThreshold` | Backend/Utils/product_utils.py:26-30 | a ranked match survives exactly when it scores at least 65 and names a non-empty record; scores below 65 are dropped |
| `ProductUtils.AtMostThree` | Backend/Utils/product_utils.py:22-33 | a returned list holds one to three records |
| `ProductUtils.ConfidenceAtLeastThreshold` | Backend/Utils/product_utils.py:27-32 | every result's `match_confidence` is a decimal number of at least 65 followed by `%` |
| `ProductUtils.ResultIsFirstByName` | Backend/Utils/product_utils.py:29-32 | every result is the first catalogue record with the matched name, changed only in `match_confidence` |
| `ProductUtils.NamelessNeverReturned` | Backend/Utils/product_utils.py:18-30 | every result has a `name`, equal to the non-`None` name it was matched by, so products without a name never come back |
| `ProductUtils.RankedOrderKept` | Backend/Utils/product_utils.py:22-33 | results keep the ranked order: scores never rise along the list |
| `ProductUtils.BelowThresholdNotFound` | Backend/Utils/product_utils.py:35-36 | when no ranked score reaches 65 a non-empty catalogue gives the not-found sentence, not an empty list |
| `ProductUtils.SameNameSameRecord` | Backend/Utils/product_utils.py:29-33 | two surviving matches of one name yield equal records, so setting `match_confidence` on the shared dict twice is the same as setting it on copies |
| `ProductUtils.SonyExample` | Backend/Utils/product_utils.py:18-38 | a catalogue holding `"Sony WH-1000XM4"` matched at 100 returns that record tagged `"100%"` |
| `SttAssistant.LoadJson` | Backend/STT/ai.py:16-23 | the parsed array on success, `[]` on any failure |
| `SttAssistant.KeywordNothingFound` | Backend/STT/ai.py:37-44 | `"No matching products found."` exactly when no product mentions the query |
| `SttAssistant.KeywordFirstThree` | Backend/STT/ai.py:32-47 | a list reply holds one to three products, each mentioning the query, being what scanning some prefix of the catalogue collects, with fewer than three only when the whole catalogue was scanned |
| `SttAssistant.KeywordKeepsEarlyHits` | Backend/STT/ai.py:38-47 | a product that mentions the query, with fewer than three mentioning products before it, is returned, at the position their count gives, repeats included |
| `SttAssistant.KeywordKeepsOrder` | Backend/STT/ai.py:38-47 | returned products keep their catalogue order |
| `SttAssistant.FailedLoadsDegrade` | Backend/STT/ai.py:16-28 | with failed loads the tools answer not-found, `"Order ID not found."` and no policy match |
| `SttAssistant.Database.constructor` | Backend/STT/ai.py:26-28 | each store is what `load_json` gave for its file |
| `SttAssistant.Database.SearchProducts` | Backend/STT/ai.py:32-47 | the loop and the `[:3]` slice give the keyword reply |
| `SttAssistant.Database.CheckOrder` | Backend/STT/ai.py:49-59 | the same result as the order tool's scan over the stored orders |
| `SttAssistant.Database.GetPolicyAnswer` | Backend/STT/ai.py:61-67 | the first match's answer, `None` when nothing matches, and the `AttributeError` of a non-text question raised to the caller |

## Left out

- Opening files and `json.load`. A store comes in as a `Load` value, and
  stores are typed as sequences of records. The model does not cover a
  store file whose top-level JSON value is not an array, or an array with
  an element that is not an object. The source does not treat all of these
  alike:
  - an empty object or `null` as the catalogue gives the empty-catalogue
    sentence through `if not products`;
  - an empty object as the order or FAQ file iterates nothing and gives
    `"Order ID not found."` or the apology;
  - `load_json` hands back any JSON value as it is, and the keyword search
    applies only `str` to each element, so an array of strings is searched
    without raising;
  - in the order and policy scans (`Backend/Utils/order_utils.py:12-13`,
    `Backend/Utils/policy_utils.py:11-12`, `Backend/STT/ai.py:54-56` and
    `Backend/STT/ai.py:64-65`) a non-object element raises in `.get` only
    when the scan reaches it before a match;
  - in the fuzzy search any non-object element of a non-empty catalogue
    gives the error sentence, whatever the query, because the name list at
    `Backend/Utils/product_utils.py:18` calls `.get` on every element before
    anything is scored.
- `json.dumps` and Python's `str` of a dict. A `json.dumps` result is kept
  as the `Output` constructor holding the records. `render` stands for
  `str(p)`.
- thefuzz's `process.extract` and `fuzz.partial_ratio`, and the `processor`
  they apply. The ranked list is a parameter, and lemmas assume
  `ProductUtils.IsExtraction` of it. Not modelled:
  - that the list holds exactly the top three of all candidates;
  - how equal scores are ordered;
  - exceptions raised while scoring.
- `str.lower()` beyond ASCII (`PyText.Lower`). Other letters are left
  unchanged, where Python lowers them.
- Python's cross-type equality in `p.get('name') == match_name`. Python
  counts `True == 1` and `1 == 1.0`; the model compares `Value`s
  structurally.
- Updating the product dict in place. The model sets `match_confidence` on
  a copy. It does not capture that the catalogue's own dict changes, or that
  two results may be the same dict object. `SameNameSameRecord` shows the
  returned text is the same either way, and the Utils catalogue is reloaded
  on every call.
- The warning `load_json` prints on a failure (console output).
- Arguments that are not strings. The model takes `order_id` and `query`
  as strings. In the source `str(order_id)` accepts any value, while a
  non-string `query` raises in `.lower()` (`Backend/Utils/policy_utils.py:12`,
  `Backend/STT/ai.py:34` and `Backend/STT/ai.py:65`).
- The Gemini model configuration, tool registration, `chat.send_message`
  and `process_user_input` in `Backend/ai.py` and `Backend/STT/ai.py`. They
  belong to an external hosted service.
- The HTTP server, audio capture, transcription and speech synthesis of
  `Backend/STT/server.py`, and the React interface
  `Frontend/voice-agent-ui/src/App.tsx`. They are I/O and UI.
- A worked policy example on a long question, `"refund"` against
  `"What is your refund policy?"`. Evaluating the string functions on a
  literal that long is too costly for the verifier. The general lemma
  `PolicyUtils.VerbatimQueryAnswersFirst` covers the case instead.
