/**
 * `find_best_match` and `get_response` as functions of the engine: an exact
 * match on the normalised question first, then, when a matrix has been
 * fitted, the best similarity score, then the canned reply.
 *
 * The similarity scores `cosine_similarity` would compute for the question
 * against each fitted row are an input (`scores`), in the rows' order.
 */
module Matching {
  import opened Wrappers
  import opened Text
  import opened Knowledge
  import Language
  import Reply

  datatype Source = ExactMatch | MlMatch | Generated

  /** The dictionary the engine answers with; `language` is only present on a generated reply. */
  datatype Response = Response(answer: string, confidence: real, category: string, source: Source,
                               found: bool, language: Option<string>)

  /** A similarity match is accepted only above this score. */
  const MatchThreshold: real := 0.3

  /** `k` is where `np.argmax` points: a maximum, and the first one. */
  predicate IsFirstMax(scores: seq<real>, k: nat)
  {
    k < |scores| &&
    (forall j :: 0 <= j < |scores| ==> scores[j] <= scores[k]) &&
    (forall j :: 0 <= j < k ==> scores[j] < scores[k])
  }

  /** `np.argmax(scores)`. */
  function ArgMaxFirst(scores: seq<real>): (k: nat)
    requires |scores| > 0
    ensures IsFirstMax(scores, k)
  {
    if |scores| == 1 then 0
    else
      var k := ArgMaxFirst(scores[..|scores| - 1]);
      if scores[|scores| - 1] > scores[k] then |scores| - 1 else k
  }

  lemma FirstMaxUnique(scores: seq<real>, k1: nat, k2: nat)
    requires IsFirstMax(scores, k1) && IsFirstMax(scores, k2)
    ensures k1 == k2
  {
    assert scores[k1] <= scores[k2] && scores[k2] <= scores[k1];
  }

  /** The response for an accepted similarity match on `e`. */
  function MlResponse(e: Entry, score: real): Response
  {
    Response(e.answer, score, e.category, MlMatch, true, None)
  }

  /** The response for an exact match on `e`. */
  function ExactResponse(e: Entry): Response
  {
    Response(e.answer, 1.0, e.category, ExactMatch, true, None)
  }

  /**
   * The similarity path: the first maximum, accepted above the threshold. A
   * row beyond the stored data (a matrix fitted on more entries than are now
   * stored) raises inside the `try`, which ends in no match.
   */
  function SimilarityMatch(data: seq<Entry>, scores: seq<real>): Option<Response>
  {
    if |scores| == 0 then None
    else
      var k := ArgMaxFirst(scores);
      if scores[k] > MatchThreshold && k < |data| then Some(MlResponse(data[k], scores[k])) else None
  }

  /** `find_best_match(question)`. */
  function BestMatch(st: Engine, question: string, scores: seq<real>): Option<Response>
  {
    var q := Normalize(question);
    var data := Data(st);
    if data == [] then None
    else match FindKey(data, q)
      case Some(i) => Some(ExactResponse(data[i]))
      case None => if st.vectors.None? then None else SimilarityMatch(data, scores)
  }

  /** `get_response(question)`. */
  function Respond(st: Engine, english: set<string>, question: string, scores: seq<real>): Response
  {
    var lang := Language.DetectLanguage(question, english);
    match BestMatch(st, question, scores)
    case Some(r) => r
    case None => Response(Reply.GenerateResponse(question, lang), 0.0, "unknown", Generated, false, Some(lang))
  }

  // ---------------------------------------------------------------------------

  /** An empty store never matches, whatever the scores and the matrix. */
  lemma EmptyStoreNoMatch(st: Engine, question: string, scores: seq<real>)
    requires Data(st) == []
    ensures BestMatch(st, question, scores) == None
  {
  }

  /**
   * A stored key wins before any similarity is looked at: the stored answer
   * and category, confidence 1.0, source `exact_match`.
   */
  lemma ExactMatchFirst(st: Engine, question: string, scores: seq<real>, i: nat)
    requires Wellformed(st)
    requires i < |Data(st)| && Data(st)[i].question == Normalize(question)
    ensures BestMatch(st, question, scores) == Some(Response(Data(st)[i].answer, 1.0, Data(st)[i].category, ExactMatch, true, None))
  {
    KeyAt(Data(st), Normalize(question), i);
  }

  /** Without a fitted matrix only exact matches are found. */
  lemma UntrainedOnlyExact(st: Engine, question: string, scores: seq<real>)
    requires st.vectors.None?
    requires forall j :: 0 <= j < |Data(st)| ==> Data(st)[j].question != Normalize(question)
    ensures BestMatch(st, question, scores) == None
  {
  }

  /**
   * With no exact match and a fitted matrix, the answer is the entry at the
   * first maximal score, accepted exactly when that score is above 0.3 and
   * the row is within the stored data; the confidence is that score.
   */
  lemma SimilarityRule(st: Engine, question: string, scores: seq<real>, k: nat)
    requires st.vectors.Some? && Data(st) != []
    requires forall j :: 0 <= j < |Data(st)| ==> Data(st)[j].question != Normalize(question)
    requires IsFirstMax(scores, k)
    ensures BestMatch(st, question, scores) ==
      if scores[k] > MatchThreshold && k < |Data(st)| then Some(MlResponse(Data(st)[k], scores[k])) else None
  {
    FirstMaxUnique(scores, k, ArgMaxFirst(scores));
  }

  /**
   * With a matrix fitted on exactly the stored questions, a similarity match
   * is found exactly when the best score is above 0.3, and it answers with the
   * entry whose question scored best.
   */
  lemma FreshIndexAnswersBestRow(st: Engine, question: string, scores: seq<real>, k: nat)
    requires IndexFresh(st) && |scores| == |st.vectors.value|
    requires forall j :: 0 <= j < |Data(st)| ==> Data(st)[j].question != Normalize(question)
    requires IsFirstMax(scores, k)
    ensures BestMatch(st, question, scores).Some? <==> scores[k] > MatchThreshold
    ensures BestMatch(st, question, scores).Some? ==>
      BestMatch(st, question, scores) == Some(MlResponse(Data(st)[k], scores[k])) &&
      Data(st)[k].question == st.vectors.value[k]
  {
    SimilarityRule(st, question, scores, k);
  }

  /**
   * After a delete takes three entries down to two, the matrix stays fitted on
   * all three, and its rows no longer line up with the entries. The best row
   * `k` then answers with the entry that was at `k` when `k` lies before the
   * deleted position `i`, with the entry after it when `k` lies at or after
   * `i`, and with nothing when `k` is the last row: that row is past the end
   * of the data, and the `IndexError` is caught.
   */
  lemma StaleIndexShift(st: Engine, deleted: string, i: nat, question: string, scores: seq<real>, k: nat)
    requires Wellformed(st) && IndexFresh(st) && |Data(st)| == MinTrainingSize
    requires i < |Data(st)| && Normalize(deleted) == Data(st)[i].question
    requires |scores| == MinTrainingSize && IsFirstMax(scores, k)
    requires forall j :: 0 <= j < |Data(st)| && j != i ==> Data(st)[j].question != Normalize(question)
    ensures var st' := Delete(st, deleted).0;
      var es := Data(st);
      st'.vectors == Some(Questions(es)) &&
      BestMatch(st', question, scores) ==
        if scores[k] > MatchThreshold && k < MinTrainingSize - 1
        then Some(MlResponse(if k < i then es[k] else es[k + 1], scores[k]))
        else None
  {
    var es := Data(st);
    var st' := Delete(st, deleted).0;
    DeleteRemovesKey(st, deleted);
    DeleteBelowMinimumKeepsOldIndex(st, deleted);
    var rest := es[..i] + es[i + 1..];
    assert Data(st') == rest;
    assert forall j :: 0 <= j < |rest| ==> rest[j] == if j < i then es[j] else es[j + 1];
    SimilarityRule(st', question, scores, k);
  }

  /** A question is answered exactly as soon as it has been added (under any casing or outer whitespace). */
  lemma AddThenExactMatch(st: Engine, question: string, answer: string, category: string, language: string,
                          now: int, asked: string, scores: seq<real>)
    requires Wellformed(st) && st.collection.Some?
    requires Normalize(asked) == Normalize(question)
    ensures var st' := Add(st, question, answer, category, language, now).0;
      BestMatch(st', asked, scores) == Some(Response(Strip(answer), 1.0, category, ExactMatch, true, None))
  {
    var st' := Add(st, question, answer, category, language, now).0;
    AddStoresOneEntry(st, question, answer, category, language, now);
    var i := FindKey(Data(st'), Normalize(question)).value;
    ExactMatchFirst(st', asked, scores, i);
  }

  /** After a delete the key is never matched exactly again. */
  lemma DeleteThenNoExactMatch(st: Engine, question: string, asked: string, scores: seq<real>)
    requires Wellformed(st)
    requires Normalize(asked) == Normalize(question)
    ensures var r := BestMatch(Delete(st, question).0, asked, scores);
      r.None? || r.value.source == MlMatch
  {
    DeleteRemovesKey(st, question);
  }

  /** With no match, the reply is generated: confidence 0.0, category `unknown`, the detected language. */
  lemma FallbackResponse(st: Engine, english: set<string>, question: string, scores: seq<real>)
    requires BestMatch(st, question, scores).None?
    ensures var r := Respond(st, english, question, scores);
      var lang := Language.DetectLanguage(question, english);
      r.answer == Reply.GenerateResponse(question, lang) && r.confidence == 0.0 && r.category == "unknown" &&
      r.source == Generated && !r.found && r.language == Some(lang)
  {
  }

  /**
   * Every response is found exactly when it did not come from the fallback;
   * found responses are confident above the threshold, and with scores in
   * [0, 1] (as cosine similarity yields) the confidence stays in [0, 1].
   */
  lemma ResponseConfidence(st: Engine, english: set<string>, question: string, scores: seq<real>)
    requires forall j :: 0 <= j < |scores| ==> 0.0 <= scores[j] <= 1.0
    ensures var r := Respond(st, english, question, scores);
      (r.found <==> r.source != Generated) &&
      (r.found ==> r.confidence > MatchThreshold && r.language.None?) &&
      (r.source == ExactMatch ==> r.confidence == 1.0) &&
      (r.source == Generated ==> r.confidence == 0.0 && r.category == "unknown") &&
      0.0 <= r.confidence <= 1.0
  {
    var m := BestMatch(st, question, scores);
    if m.Some? {
      var data := Data(st);
      if FindKey(data, Normalize(question)).None? {
        var k := ArgMaxFirst(scores);
        assert m == Some(MlResponse(data[k], scores[k]));
      }
    } else {
      FallbackResponse(st, english, question, scores);
    }
  }
}
