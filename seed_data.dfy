/**
 * The 26 base entries `_load_base_knowledge` writes into an empty store
 * (ai_brain.py:296-329), kept column by column (question, answer, category,
 * language): row `i` of each column is the `i`-th tuple of the base list.
 */
module SeedData {
  import opened Wrappers
  import opened Text
  import opened Knowledge
  import opened Seeding
  import opened SeedAnswers

  /** The questions of the base list (ai_brain.py:297-328). */
  function BaseQuestions(): (column: seq<string>)
    ensures |column| == 26
  {
    [
    "hi",
    "hello",
    "how are you",
    "thanks",
    "thank you",

    "kamusta",
    "kumusta ka",
    "salamat",

    "what is lua",
    "how to create variable in lua",
    "what is table in lua",
    "lua function example",
    "lua loop example",

    "what is localscript",
    "what is script vs localscript",
    "how to make part in roblox",
    "how to detect player click",
    "what is remoteevent",

    "how to create gui in roblox",
    "how to make button in roblox gui",
    "udim2 explained",

    "what is roblox executor",
    "loadstring in lua",
    "getgenv explained",

    "paano gumawa ng script sa roblox",
    "ano ang variable sa lua"
    ]
  }

  /** The category of row `i`: the base list is grouped by category. */
  function BaseCategory(i: nat): string
    requires i < 26
  {
    if i < 8 then "greeting"
    else if i < 13 then "lua_basics"
    else if i < 18 then "roblox_scripting"
    else if i < 21 then "gui"
    else if i < 24 then "executor"
    else if i == 24 then "roblox_scripting"
    else "lua_basics"
  }

  /** The language of row `i`: the three Tagalog greetings and the last two rows are `'tl'`. */
  function BaseLanguage(i: nat): string
    requires i < 26
  {
    if 5 <= i < 8 || 24 <= i then "tl" else "en"
  }

  /** The base list, tuple by tuple. */
  function BaseKnowledge(): (seeds: seq<Seed>)
    ensures |seeds| == 26 && forall i :: 0 <= i < 26 ==> seeds[i].question == BaseQuestions()[i]
  {
    seq(26, i requires 0 <= i < 26 => Seed(BaseQuestions()[i], BaseAnswer(i), BaseCategory(i), BaseLanguage(i)))
  }

  // The base questions are checked a few literals at a time: one obligation over all 26 literals is
  // too large for the solver, while each small group is settled by evaluation.
  lemma QuestionsNormal0()
    ensures IsNormal("hi") && IsNormal("hello") && IsNormal("how are you") && IsNormal("thanks") && IsNormal("thank you")
  {
  }

  lemma QuestionsNormal1()
    ensures IsNormal("kamusta") && IsNormal("kumusta ka") && IsNormal("salamat")
  {
  }

  lemma QuestionsNormal2()
    ensures IsNormal("what is lua") && IsNormal("how to create variable in lua")
  {
  }

  lemma QuestionsNormal3()
    ensures IsNormal("what is table in lua")
  {
  }

  lemma QuestionsNormal4()
    ensures IsNormal("lua function example") && IsNormal("lua loop example")
  {
  }

  lemma QuestionsNormal5()
    ensures IsNormal("what is localscript") && IsNormal("what is script vs localscript")
  {
  }

  lemma QuestionsNormal6()
    ensures IsNormal("how to make part in roblox")
  {
  }

  lemma QuestionsNormal7()
    ensures IsNormal("how to detect player click") && IsNormal("what is remoteevent")
  {
  }

  lemma QuestionsNormal8()
    ensures IsNormal("how to create gui in roblox")
  {
  }

  lemma QuestionsNormal9()
    ensures IsNormal("how to make button in roblox gui")
  {
  }

  lemma QuestionsNormal10()
    ensures IsNormal("udim2 explained") && IsNormal("what is roblox executor")
  {
  }

  lemma QuestionsNormal11()
    ensures IsNormal("loadstring in lua") && IsNormal("getgenv explained")
  {
  }

  lemma QuestionsNormal12()
    ensures IsNormal("paano gumawa ng script sa roblox")
  {
  }

  lemma QuestionsNormal13()
    ensures IsNormal("ano ang variable sa lua")
  {
  }

  /** Every base question is already lower-case and trimmed, so it is its own key. */
  lemma BaseQuestionsNormal()
    ensures forall q :: q in BaseQuestions() ==> Normalize(q) == q
  {
    QuestionsNormal0();
    QuestionsNormal1();
    QuestionsNormal2();
    QuestionsNormal3();
    QuestionsNormal4();
    QuestionsNormal5();
    QuestionsNormal6();
    QuestionsNormal7();
    QuestionsNormal8();
    QuestionsNormal9();
    QuestionsNormal10();
    QuestionsNormal11();
    QuestionsNormal12();
    QuestionsNormal13();
    forall q | q in BaseQuestions() ensures Normalize(q) == q {
      NormalOfNormal(q);
    }
  }

  /** The 26 base questions are pairwise different. */
  lemma BaseQuestionsDistinct()
    ensures |BaseQuestions()| == 26
    ensures forall i, j :: 0 <= i < j < 26 ==> BaseQuestions()[i] != BaseQuestions()[j]
  {
  }

  /** Seeds whose questions are, row by row, the base questions. */
  predicate AsksBaseQuestions(seeds: seq<Seed>)
  {
    |seeds| == 26 && forall i :: 0 <= i < 26 ==> seeds[i].question == BaseQuestions()[i]
  }

  /** So such seeds carry pairwise different keys. */
  lemma BaseKeysDistinct(seeds: seq<Seed>)
    requires AsksBaseQuestions(seeds)
    ensures DistinctKeys(seeds)
  {
    BaseQuestionsDistinct();
    BaseQuestionsNormal();
    forall i | 0 <= i < 26 ensures Normalize(seeds[i].question) == BaseQuestions()[i] {
      assert BaseQuestions()[i] in BaseQuestions();
    }
  }

  /** The keys of the seeded documents are the base questions themselves. */
  lemma SeedDocsQuestions(seeds: seq<Seed>, now: int)
    requires AsksBaseQuestions(seeds)
    ensures Questions(SeedDocs(seeds, now)) == BaseQuestions()
  {
    var docs := SeedDocs(seeds, now);
    BaseQuestionsNormal();
    forall i | 0 <= i < 26 ensures Questions(docs)[i] == BaseQuestions()[i] {
      assert BaseQuestions()[i] in BaseQuestions();
    }
  }

  /** The base questions yield a vocabulary: `hi` alone is a term. */
  lemma BaseQuestionsFit()
    ensures Fits(BaseQuestions())
  {
    assert BaseQuestions()[0] == "hi";
    assert HasTerm("hi") by {
      assert IsWordChar("hi"[0]) && IsWordChar("hi"[1]);
    }
  }

  /** Seeding an empty store with seeds that ask the base questions, whatever their answers. */
  lemma SeedBaseQuestions(vectors: Option<seq<string>>, seeds: seq<Seed>, now: int)
    requires vectors.Some? ==> |vectors.value| >= MinTrainingSize
    requires AsksBaseQuestions(seeds)
    ensures var r := SeedAll(Engine(Some([]), vectors), seeds, now);
      r.1 == 26 && Data(r.0) == SeedDocs(seeds, now) && Questions(Data(r.0)) == BaseQuestions() &&
      IndexFresh(r.0) && Wellformed(r.0)
  {
    BaseKeysDistinct(seeds);
    SeedNewKeys(Engine(Some([]), vectors), seeds, now);
    SeedDocsQuestions(seeds, now);
    BaseQuestionsFit();
  }

  /**
   * Seeding an empty store leaves exactly the 26 base documents, in list order,
   * reports 26 successful adds, and leaves the matrix fitted on their questions.
   */
  lemma SeedEmptyStore(vectors: Option<seq<string>>, now: int)
    requires vectors.Some? ==> |vectors.value| >= MinTrainingSize
    ensures var r := SeedAll(Engine(Some([]), vectors), BaseKnowledge(), now);
      r.1 == 26 && Data(r.0) == SeedDocs(BaseKnowledge(), now) && |Data(r.0)| == 26 &&
      (forall i :: 0 <= i < 26 ==> Data(r.0)[i].question == BaseQuestions()[i]) &&
      Fits(Questions(Data(r.0))) && IndexFresh(r.0) && Wellformed(r.0)
  {
    SeedBaseQuestions(vectors, BaseKnowledge(), now);
    BaseQuestionsFit();
  }
}
