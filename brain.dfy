/**
 * The `RobloxLuaAI` object itself. Its state is the `knowledge` collection
 * (or none, when the database could not be reached) and the fitted matrix;
 * `add_training_data` and `delete_knowledge` change the collection and refit,
 * `train_model` reassigns the matrix. Every method is tied to the functions of
 * `Knowledge`, `Matching`, `Stats` and `Seeding`, whose properties are proved
 * there; the lemmas at the end of this module are about start-up.
 */
module Brain {
  import opened Wrappers
  import opened Text
  import opened Knowledge
  import opened Matching
  import opened Stats
  import opened Seeding
  import opened SeedData
  import Language
  import Reply

  /**
   * What `__init__` leaves behind: the collection as `connect_db` found it
   * (`stored`), seeded with the base list when it holds nothing, then trained.
   */
  function Startup(stored: Option<seq<Entry>>, now: int): Engine
  {
    var st := Engine(stored, None);
    Train(if |Data(st)| == 0 then SeedAll(st, BaseKnowledge(), now).0 else st)
  }

  class RobloxLuaAI {
    /** The `knowledge` collection in `_id` order; `None` when the database could not be reached. */
    var collection: Option<seq<Entry>>
    /** The fitted TF-IDF matrix, as the questions it was fitted on; `None` until a fit succeeds. */
    var vectors: Option<seq<string>>
    /** NLTK's English stopword list, which is loaded from outside. */
    const englishStopwords: set<string>

    function State(): Engine
      reads this
    {
      Engine(collection, vectors)
    }

    ghost predicate Valid()
      reads this
    {
      Wellformed(State())
    }

    /**
     * `__init__`. `stored` is what `connect_db` found: the documents of the
     * collection, which the unique index keeps unique, or `None` when the
     * connection failed.
     */
    constructor (englishStopwords: set<string>, stored: Option<seq<Entry>>, now: int)
      requires stored.Some? ==> UniqueKeys(stored.value)
      ensures Valid() && this.englishStopwords == englishStopwords
      ensures State() == Startup(stored, now)
    {
      this.englishStopwords := englishStopwords;
      collection := stored;
      vectors := None;
      new;
      var n := GetKnowledgeCount();
      if n == 0 {
        var _ := LoadBaseKnowledge(now);
      }
      TrainModel();
    }

    /** `get_knowledge_count`: 0 without a collection. */
    method GetKnowledgeCount() returns (n: nat)
      ensures n == |Data(State())|
      ensures collection.None? ==> n == 0
    {
      n := if collection.None? then 0 else |collection.value|;
    }

    /** `get_all_training_data`: the documents in `_id` order, or nothing without a collection. */
    method GetAllTrainingData() returns (data: seq<Entry>)
      ensures data == Data(State())
      ensures collection.None? ==> data == []
    {
      data := if collection.None? then [] else collection.value;
    }

    /**
     * `add_training_data`: write the normalised document with an upsert and
     * refit when it was inserted or changed something.
     */
    method AddTrainingData(question: string, answer: string, category: string := "general",
                           language: string := "en", now: int) returns (learned: bool)
      requires Valid()
      modifies this
      ensures Valid()
      ensures (State(), learned) == Add(old(State()), question, answer, category, language, now)
    {
      if collection.None? {
        return false;
      }
      var es := collection.value;
      var doc := MakeDoc(question, answer, category, language, now);
      match FindKey(es, doc.question) {
        case None =>
          collection := Some(es + [doc]);
          learned := true;
        case Some(i) =>
          learned := es[i] != doc;
          if learned {
            collection := Some(es[i := doc]);
          }
      }
      var _ := UpsertUnique(es, doc);
      if learned {
        TrainModel();
      }
    }

    /** `train_model`: refit over every current question, unless there are fewer than three or the fit fails. */
    method TrainModel()
      requires Valid()
      modifies this`vectors
      ensures Valid()
      ensures State() == Train(old(State()))
    {
      var data := GetAllTrainingData();
      if |data| < MinTrainingSize {
        return;
      }
      var questions := Questions(data);
      if Fits(questions) {
        vectors := Some(questions);
      }
    }

    /**
     * `find_best_match`: scan the documents for the normalised question, then
     * fall back on the similarity `scores` when a matrix is fitted.
     */
    method FindBestMatch(question: string, scores: seq<real>) returns (r: Option<Response>)
      ensures r == BestMatch(State(), question, scores)
    {
      var q := Normalize(question);
      var data := GetAllTrainingData();
      if |data| == 0 {
        return None;
      }
      var i := 0;
      while i < |data|
        invariant 0 <= i <= |data|
        invariant forall j :: 0 <= j < i ==> data[j].question != q
      {
        if data[i].question == q {
          return Some(ExactResponse(data[i]));
        }
        i := i + 1;
      }
      if vectors.None? {
        return None;
      }
      r := SimilarityMatch(data, scores);
    }

    /** `get_response`: the match if there is one, else the generated reply in the detected language. */
    method GetResponse(question: string, scores: seq<real>) returns (r: Response)
      ensures r == Respond(State(), englishStopwords, question, scores)
    {
      var lang := Language.DetectLanguage(question, englishStopwords);
      var result := FindBestMatch(question, scores);
      if result.Some? {
        return result.value;
      }
      var answer := Reply.GenerateResponse(question, lang);
      r := Response(answer, 0.0, "unknown", Generated, false, Some(lang));
    }

    /** `delete_knowledge`: remove the document under the normalised key and refit. */
    method DeleteKnowledge(question: string) returns (deleted: bool)
      requires Valid()
      modifies this
      ensures Valid()
      ensures (State(), deleted) == Delete(old(State()), question)
    {
      if collection.None? {
        return false;
      }
      var q := Normalize(question);
      var es := collection.value;
      match FindKey(es, q) {
        case None =>
          return false;
        case Some(i) =>
          collection := Some(es[..i] + es[i + 1..]);
      }
      RemoveUnique(es, q);
      TrainModel();
      deleted := true;
    }

    /** `get_stats`: count the documents per category and per language. */
    method GetStats() returns (report: Report)
      ensures report == StatsOf(State())
    {
      var data := GetAllTrainingData();
      var categories: map<string, nat> := map[];
      var languages: map<string, nat> := map[];
      assert data[..0] == [];
      var i := 0;
      while i < |data|
        invariant 0 <= i <= |data|
        invariant categories == Tally(Categories(data[..i]))
        invariant languages == Tally(Languages(data[..i]))
      {
        var cat, lang := data[i].category, data[i].language;
        TallyStep(data, i);
        categories := Bump(categories, cat);
        languages := Bump(languages, lang);
        i := i + 1;
      }
      assert data[..|data|] == data;
      report := Report(|data|, |categories|, categories, vectors.Some?, true, languages, |data|, Accuracy(|data|));
    }

    /** `_load_base_knowledge`: add the base list in order, counting the adds that report `True`. */
    method LoadBaseKnowledge(now: int) returns (count: nat)
      requires Valid()
      modifies this
      ensures Valid()
      ensures (State(), count) == SeedAll(old(State()), BaseKnowledge(), now)
    {
      count := AddEach(BaseKnowledge(), now);
    }

    /** The loop of `_load_base_knowledge`, over any list of `(question, answer, category, language)` tuples. */
    method AddEach(seeds: seq<Seed>, now: int) returns (count: nat)
      requires Valid()
      modifies this
      ensures Valid()
      ensures (State(), count) == SeedAll(old(State()), seeds, now)
    {
      count := 0;
      var i := 0;
      while i < |seeds|
        invariant 0 <= i <= |seeds| && Valid()
        invariant (State(), count) == SeedAll(old(State()), seeds[..i], now)
      {
        var seed := seeds[i];
        ghost var before := State();
        var learned := AddTrainingData(seed.question, seed.answer, seed.category, seed.language, now);
        SeedAllStep(old(State()), seeds, i, now, before, count, State(), learned);
        if learned {
          count := count + 1;
        }
        i := i + 1;
      }
      assert seeds[..|seeds|] == seeds;
    }
  }

  // ---------------------------------------------------------------------------
  // Start-up

  /** Without a database nothing is seeded and nothing is fitted. */
  lemma StartupOffline(now: int)
    ensures Startup(None, now) == Engine(None, None)
  {
    SeedWithoutCollection(Engine(None, None), BaseKnowledge(), now);
  }

  /**
   * An empty collection is seeded with the 26 base documents, in list order,
   * and the matrix is fitted on their questions.
   */
  lemma StartupEmpty(now: int)
    ensures var st := Startup(Some([]), now);
      Wellformed(st) && |Data(st)| == 26 && Data(st) == SeedDocs(BaseKnowledge(), now) &&
      (forall i :: 0 <= i < 26 ==> Data(st)[i].question == BaseQuestions()[i]) &&
      IndexFresh(st)
  {
    SeedEmptyStore(None, now);
  }

  /**
   * A collection that already holds documents is kept as it is; the matrix is
   * fitted on its questions when there are at least three and they yield a
   * term, and is absent otherwise.
   */
  lemma StartupExisting(es: seq<Entry>, now: int)
    requires es != []
    ensures var st := Startup(Some(es), now);
      Data(st) == es &&
      (|es| >= MinTrainingSize && Fits(Questions(es)) ==> IndexFresh(st)) &&
      (|es| < MinTrainingSize || !Fits(Questions(es)) ==> st.vectors.None?)
  {
  }
}
