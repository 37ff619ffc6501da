/**
 * The knowledge store of `RobloxLuaAI` as a value: the `knowledge` collection
 * (documents in `_id` order, unique on `question`, or no collection at all when
 * the database could not be reached) together with the fitted TF-IDF matrix,
 * abstracted as the list of questions it was fitted on.
 */
module Knowledge {
  import opened Wrappers
  import opened Text

  /** One document of the `knowledge` collection. `createdAt` is the clock reading passed in. */
  datatype Entry = Entry(question: string, answer: string, category: string, language: string, createdAt: int)

  /** `collection` is `None` when there is no database; `vectors` is `None` until a fit succeeds. */
  datatype Engine = Engine(collection: Option<seq<Entry>>, vectors: Option<seq<string>>)

  /** `train_model` refuses to fit on fewer entries than this. */
  const MinTrainingSize: nat := 3

  function Questions(es: seq<Entry>): (qs: seq<string>)
    ensures |qs| == |es| && forall i :: 0 <= i < |es| ==> qs[i] == es[i].question
  {
    if es == [] then [] else Questions(es[..|es| - 1]) + [es[|es| - 1].question]
  }

  /** The unique index on `question`. */
  predicate UniqueKeys(es: seq<Entry>)
  {
    forall i, j :: 0 <= i < j < |es| ==> es[i].question != es[j].question
  }

  /** What every reachable engine satisfies. */
  predicate Wellformed(st: Engine)
  {
    (st.collection.Some? ==> UniqueKeys(st.collection.value)) &&
    (st.vectors.Some? ==> |st.vectors.value| >= MinTrainingSize)
  }

  /** `get_all_training_data`: the documents in `_id` order, or nothing without a collection. */
  function Data(st: Engine): seq<Entry>
  {
    if st.collection.None? then [] else st.collection.value
  }

  /** The first position holding key `q`, as the exact-match scan and `update_one` find it. */
  function FindKey(es: seq<Entry>, q: string): (r: Option<nat>)
    ensures r.None? <==> forall i :: 0 <= i < |es| ==> es[i].question != q
    ensures r.Some? ==> r.value < |es| && es[r.value].question == q
    ensures r.Some? ==> forall j :: 0 <= j < r.value ==> es[j].question != q
  {
    if es == [] then None
    else if es[0].question == q then Some(0)
    else match FindKey(es[1..], q)
      case None => None
      case Some(i) => Some(i + 1)
  }

  /** `update_one({'question': q}, {'$set': doc}, upsert=True)`: replace in place, or append. */
  function Upsert(es: seq<Entry>, doc: Entry): seq<Entry>
  {
    match FindKey(es, doc.question)
    case None => es + [doc]
    case Some(i) => es[i := doc]
  }

  /** `delete_one({'question': q})`. */
  function Remove(es: seq<Entry>, q: string): seq<Entry>
  {
    match FindKey(es, q)
    case None => es
    case Some(i) => es[..i] + es[i + 1..]
  }

  /** A character of the tokenizer's `\w` class (ASCII letters, digits and `_`). */
  predicate IsWordChar(c: char)
  {
    ('a' <= c <= 'z') || ('A' <= c <= 'Z') || ('0' <= c <= '9') || c == '_'
  }

  /** The question yields at least one term under the default token pattern `\b\w\w+\b`: two adjacent word characters. */
  predicate HasTerm(s: string)
  {
    |s| >= 2 && ((IsWordChar(s[0]) && IsWordChar(s[1])) || HasTerm(s[1..]))
  }

  /** `fit_transform` succeeds: the vocabulary it builds is not empty. */
  predicate Fits(questions: seq<string>)
  {
    |questions| > 0 && (HasTerm(questions[0]) || Fits(questions[1..]))
  }

  /** `train_model`: refit over all current questions, unless there are too few or the fit fails. */
  function Train(st: Engine): Engine
  {
    var data := Data(st);
    if |data| < MinTrainingSize then st
    else if Fits(Questions(data)) then st.(vectors := Some(Questions(data)))
    else st
  }

  /** The document `add_training_data` writes. */
  function MakeDoc(question: string, answer: string, category: string, language: string, now: int): Entry
  {
    Entry(Normalize(question), Strip(answer), category, language, now)
  }

  /** `add_training_data`: the new engine and the returned flag. */
  function Add(st: Engine, question: string, answer: string, category: string, language: string, now: int): (Engine, bool)
  {
    if st.collection.None? then (st, false)
    else
      var es := st.collection.value;
      var doc := MakeDoc(question, answer, category, language, now);
      var changed := match FindKey(es, doc.question) case None => true case Some(i) => es[i] != doc;
      if changed then (Train(st.(collection := Some(Upsert(es, doc)))), true) else (st, false)
  }

  /** `delete_knowledge`: the new engine and the returned flag. */
  function Delete(st: Engine, question: string): (Engine, bool)
  {
    if st.collection.None? then (st, false)
    else
      var q := Normalize(question);
      var es := st.collection.value;
      if FindKey(es, q).None? then (st, false)
      else (Train(st.(collection := Some(Remove(es, q)))), true)
  }

  /** The matrix was fitted on exactly the questions now stored, in order. */
  predicate IndexFresh(st: Engine)
  {
    st.vectors == Some(Questions(Data(st)))
  }

  // ---------------------------------------------------------------------------
  // Keys

  lemma KeyAt(es: seq<Entry>, q: string, i: nat)
    requires UniqueKeys(es) && i < |es| && es[i].question == q
    ensures FindKey(es, q) == Some(i)
  {
  }

  /** Upserting keeps the keys unique and leaves exactly one entry, `doc`, under its key. */
  lemma UpsertUnique(es: seq<Entry>, doc: Entry) returns (i: nat)
    requires UniqueKeys(es)
    ensures UniqueKeys(Upsert(es, doc))
    ensures i < |Upsert(es, doc)| && Upsert(es, doc)[i] == doc
    ensures forall j :: 0 <= j < |Upsert(es, doc)| && j != i ==> Upsert(es, doc)[j].question != doc.question
  {
    match FindKey(es, doc.question)
    case None => i := |es|;
    case Some(k) => i := k;
  }

  /** Removing keeps the others in order and leaves no entry under the key. */
  lemma RemoveUnique(es: seq<Entry>, q: string)
    requires UniqueKeys(es)
    ensures UniqueKeys(Remove(es, q))
    ensures forall j :: 0 <= j < |Remove(es, q)| ==> Remove(es, q)[j].question != q
  {
    match FindKey(es, q)
    case None =>
    case Some(i) =>
      var r := es[..i] + es[i + 1..];
      forall j | 0 <= j < |r| ensures r[j] == (if j < i then es[j] else es[j + 1]) { }
  }

  // ---------------------------------------------------------------------------
  // add_training_data

  /** Without a collection, adding and deleting report `False` and change nothing, and there is no data. */
  lemma NoCollectionDefaults(st: Engine, question: string, answer: string, category: string, language: string, now: int)
    requires st.collection.None?
    ensures Add(st, question, answer, category, language, now) == (st, false)
    ensures Delete(st, question) == (st, false)
    ensures Data(st) == [] && Train(st) == st
  {
  }

  lemma TrainKeepsCollection(st: Engine)
    ensures Train(st).collection == st.collection && Data(Train(st)) == Data(st)
  {
  }

  /** Appending a document under a new key makes it the one found under that key. */
  lemma FindKeyAppended(es: seq<Entry>, doc: Entry)
    requires forall j :: 0 <= j < |es| ==> es[j].question != doc.question
    ensures FindKey(es + [doc], doc.question) == Some(|es|)
  {
    var es' := es + [doc];
    assert es'[|es|] == doc;
    assert forall j :: 0 <= j < |es| ==> es'[j] == es[j];
  }

  /**
   * After adding, exactly one entry carries the normalised question, and it is
   * the document just written (question lower-cased and trimmed, answer trimmed),
   * whether the call inserted, updated, or found the same document already there.
   */
  lemma AddStoresOneEntry(st: Engine, question: string, answer: string, category: string, language: string, now: int)
    requires Wellformed(st) && st.collection.Some?
    ensures var st' := Add(st, question, answer, category, language, now).0;
      var doc := MakeDoc(question, answer, category, language, now);
      Wellformed(st') && st'.collection.Some? &&
      FindKey(Data(st'), Normalize(question)).Some? &&
      Data(st')[FindKey(Data(st'), Normalize(question)).value] == doc &&
      forall j :: 0 <= j < |Data(st')| && Data(st')[j].question == Normalize(question) ==> Data(st')[j] == doc
  {
    var es := st.collection.value;
    var doc := MakeDoc(question, answer, category, language, now);
    var r := Add(st, question, answer, category, language, now);
    var i := UpsertUnique(es, doc);
    if r.1 {
      assert Data(r.0) == Upsert(es, doc);
      KeyAt(Upsert(es, doc), doc.question, i);
    } else {
      var k := FindKey(es, doc.question).value;
      assert es[k] == doc;
      KeyAt(es, doc.question, k);
    }
  }

  /**
   * An existing key is updated in place: the count, the key and every other
   * entry keep their positions, and the call reports `True` exactly when the
   * stored document changed.
   */
  lemma AddUpdatesInPlace(st: Engine, question: string, answer: string, category: string, language: string, now: int, i: nat)
    requires Wellformed(st) && st.collection.Some?
    requires i < |Data(st)| && Data(st)[i].question == Normalize(question)
    ensures var (st', ok) := Add(st, question, answer, category, language, now);
      var doc := MakeDoc(question, answer, category, language, now);
      ok == (Data(st)[i] != doc) &&
      |Data(st')| == |Data(st)| && Data(st')[i] == doc &&
      forall j :: 0 <= j < |Data(st)| && j != i ==> Data(st')[j] == Data(st)[j]
  {
    KeyAt(Data(st), Normalize(question), i);
  }

  /** A new key is appended at the end of the `_id` order and the call reports `True`. */
  lemma AddAppendsNewKey(st: Engine, question: string, answer: string, category: string, language: string, now: int)
    requires st.collection.Some?
    requires forall j :: 0 <= j < |Data(st)| ==> Data(st)[j].question != Normalize(question)
    ensures var (st', ok) := Add(st, question, answer, category, language, now);
      ok && Data(st') == Data(st) + [MakeDoc(question, answer, category, language, now)]
  {
    var es := st.collection.value;
    var doc := MakeDoc(question, answer, category, language, now);
    assert doc.question == Normalize(question) && es == Data(st);
    assert FindKey(es, doc.question).None?;
    TrainKeepsCollection(st.(collection := Some(es + [doc])));
  }

  // ---------------------------------------------------------------------------
  // delete_knowledge

  /**
   * Deleting reports `True` exactly when the normalised key was stored; it
   * removes that one entry, keeps the others in order, and leaves the key absent.
   */
  lemma DeleteRemovesKey(st: Engine, question: string)
    requires Wellformed(st)
    ensures var (st', ok) := Delete(st, question);
      var q := Normalize(question);
      Wellformed(st') && st'.collection.Some? == st.collection.Some? &&
      (ok <==> exists i :: 0 <= i < |Data(st)| && Data(st)[i].question == q) &&
      (forall j :: 0 <= j < |Data(st')| ==> Data(st')[j].question != q) &&
      (!ok ==> st' == st) &&
      (forall i :: 0 <= i < |Data(st)| && Data(st)[i].question == q ==> Data(st') == Data(st)[..i] + Data(st)[i + 1..])
  {
    var (st', ok) := Delete(st, question);
    var q := Normalize(question);
    if st.collection.Some? {
      var es := st.collection.value;
      RemoveUnique(es, q);
      if ok {
        var removed := st.(collection := Some(Remove(es, q)));
        assert st' == Train(removed);
        TrainKeepsCollection(removed);
        assert Wellformed(removed);
        var k := FindKey(es, q).value;
        assert Data(st)[k].question == q;
        forall i | 0 <= i < |es| && es[i].question == q
          ensures Data(st') == es[..i] + es[i + 1..]
        {
          KeyAt(es, q, i);
        }
      }
    }
  }

  /** Adding a new question and then deleting it gives back the store as it was. */
  lemma AddThenDeleteRestores(st: Engine, question: string, answer: string, category: string, language: string, now: int)
    requires st.collection.Some?
    requires forall j :: 0 <= j < |Data(st)| ==> Data(st)[j].question != Normalize(question)
    ensures Data(Delete(Add(st, question, answer, category, language, now).0, question).0) == Data(st)
  {
    var es := Data(st);
    var doc := MakeDoc(question, answer, category, language, now);
    var es' := es + [doc];
    AddAppendsNewKey(st, question, answer, category, language, now);
    FindKeyAppended(es, doc);
    var st' := Add(st, question, answer, category, language, now).0;
    assert Data(st') == es';
    assert es'[..|es|] + es'[|es| + 1..] == es;
    TrainKeepsCollection(st'.(collection := Some(es)));
  }

  // ---------------------------------------------------------------------------
  // train_model

  /**
   * Training with fewer than three entries leaves the engine as it was, so an
   * earlier fit stays in place; with three or more it refits over every
   * current question in order, unless the questions yield no term at all.
   */
  lemma TrainRule(st: Engine)
    ensures Train(st).collection == st.collection
    ensures |Data(st)| < MinTrainingSize ==> Train(st) == st
    ensures |Data(st)| >= MinTrainingSize && Fits(Questions(Data(st))) ==> IndexFresh(Train(st))
    ensures !Fits(Questions(Data(st))) ==> Train(st) == st
  {
  }

  /** `HasTerm` holds exactly when two adjacent characters are both word characters. */
  lemma {:induction false} HasTermExactly(s: string)
    ensures HasTerm(s) <==> exists i :: 0 <= i && i + 1 < |s| && IsWordChar(s[i]) && IsWordChar(s[i + 1])
  {
    if |s| >= 2 {
      HasTermExactly(s[1..]);
      if HasTerm(s[1..]) {
        var i :| 0 <= i && i + 1 < |s[1..]| && IsWordChar(s[1..][i]) && IsWordChar(s[1..][i + 1]);
        assert IsWordChar(s[i + 1]) && IsWordChar(s[i + 2]);
      }
      if exists i :: 0 <= i && i + 1 < |s| && IsWordChar(s[i]) && IsWordChar(s[i + 1]) {
        var i :| 0 <= i && i + 1 < |s| && IsWordChar(s[i]) && IsWordChar(s[i + 1]);
        if i > 0 {
          assert IsWordChar(s[1..][i - 1]) && IsWordChar(s[1..][i]);
        }
      }
    }
  }

  /** A fit succeeds exactly when some question yields a term. */
  lemma {:induction false} FitsExactly(questions: seq<string>)
    ensures Fits(questions) <==> exists k :: 0 <= k < |questions| && HasTerm(questions[k])
  {
    if questions != [] {
      FitsExactly(questions[1..]);
      if Fits(questions[1..]) {
        var k :| 0 <= k < |questions[1..]| && HasTerm(questions[1..][k]);
        assert HasTerm(questions[k + 1]);
      }
      if exists k :: 0 <= k < |questions| && HasTerm(questions[k]) {
        var k :| 0 <= k < |questions| && HasTerm(questions[k]);
        if k > 0 {
          assert HasTerm(questions[1..][k - 1]);
        }
      }
    }
  }

  /** Once fitted, the engine stays fitted whatever is added, deleted or retrained. */
  lemma TrainedStaysTrained(st: Engine, question: string, answer: string, category: string, language: string, now: int)
    requires st.vectors.Some?
    ensures Train(st).vectors.Some?
    ensures Add(st, question, answer, category, language, now).0.vectors.Some?
    ensures Delete(st, question).0.vectors.Some?
  {
    if st.collection.Some? {
      var es := st.collection.value;
      var doc := MakeDoc(question, answer, category, language, now);
      assert Train(st.(collection := Some(Upsert(es, doc)))).vectors.Some?;
      assert Train(st.(collection := Some(Remove(es, Normalize(question))))).vectors.Some?;
    }
  }

  /** Adding and deleting keep an engine well-formed. */
  lemma OperationsKeepWellformed(st: Engine, question: string, answer: string, category: string, language: string, now: int)
    requires Wellformed(st)
    ensures Wellformed(Train(st))
    ensures Wellformed(Add(st, question, answer, category, language, now).0)
    ensures Wellformed(Delete(st, question).0)
  {
    if st.collection.Some? {
      AddStoresOneEntry(st, question, answer, category, language, now);
    }
    DeleteRemovesKey(st, question);
  }

  /**
   * A successful add leaves the matrix fitted on the current questions as soon
   * as there are three entries with some term; a successful delete that leaves
   * fewer than three keeps the earlier matrix, which then no longer matches.
   */
  lemma AddRefreshesIndex(st: Engine, question: string, answer: string, category: string, language: string, now: int)
    requires Add(st, question, answer, category, language, now).1
    ensures var st' := Add(st, question, answer, category, language, now).0;
      |Data(st')| >= MinTrainingSize && Fits(Questions(Data(st'))) ==> IndexFresh(st')
  {
  }

  lemma DeleteBelowMinimumKeepsOldIndex(st: Engine, question: string)
    requires Delete(st, question).1
    requires |Data(st)| <= MinTrainingSize
    ensures Delete(st, question).0.vectors == st.vectors
    ensures |Data(Delete(st, question).0)| == |Data(st)| - 1
  {
    var q := Normalize(question);
    var es := st.collection.value;
    var i := FindKey(es, q).value;
    assert |es[..i] + es[i + 1..]| == |es| - 1;
  }
}
