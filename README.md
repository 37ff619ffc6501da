# RobloxLuaAI knowledge engine, modelled in Dafny

This project models the core of `RobloxLuaAI` (`ai_brain.py`), the
question-answering engine behind the Roblox Lua helper. The model covers:

- **The knowledge store.** This is MongoDB's `knowledge` collection. The model
  keeps it as the sequence of its documents in `_id` order (insertion order),
  and the unique index on `question` keeps at most one document per key. When
  the database cannot be reached there is no collection.
- **The TF-IDF matrix.** It is abstracted as the list of questions it was last
  fitted on. `train_model` refits only with at least three documents, and only
  when the questions yield some term. Otherwise the previous matrix stays.
- **Writes.** `add_training_data` normalises the key with `lower().strip()`,
  upserts the document and refits when something changed. A question that is
  already stored is updated, never rejected. `delete_knowledge`
  removes one document and refits.
- **Answers.** `find_best_match` tries an exact key first. It then falls back on
  the first maximum of the cosine similarities (`np.argmax`), accepted only
  above 0.3. `get_response` uses the match, or a canned reply from
  `generate_response` in the language `detect_language` picks.
- **Statistics.** `get_stats` counts documents per category and per language.
- **Start-up.** `__init__` connects, seeds an empty store with the 26 base
  entries through `_load_base_knowledge`, and then trains the matrix.

The files follow the program's structure:

- `text.dfy`: Python's `strip` and `split` with Python's whitespace set, and `lower` for the ASCII, Latin-1, Latin Extended-A, basic Greek and basic Cyrillic capitals.
- `knowledge.dfy`: the store as a value (`Engine`), with `Add`, `Delete` and `Train` and their properties.
- `matching.dfy`: `find_best_match` and `get_response` as functions.
- `language.dfy`: `detect_language`.
- `reply.dfy` and `reply_text.dfy`: `generate_response` and its eight texts.
- `stats.dfy`: `get_stats` as a function.
- `seeding.dfy`, `seed_data.dfy` and `seed_answers.dfy`: `_load_base_knowledge` and the base list.
- `brain.dfy`: the `RobloxLuaAI` class. Its fields are the collection and the
  matrix, and its methods update them in place. Each method is tied by its
  `ensures` to the function that specifies it.

Inputs the program gets from outside are parameters:

- the NLTK English stopword set;
- the similarity scores of the question against the matrix rows (`scores`);
- the clock (`now`);
- what `connect_db` found (`stored`).

## Model

| member | source | states |
|---|---|---|
| Brain.RobloxLuaAI.constructor | ai_brain.py:26-53 | after `__init__` the object holds `Startup(stored, now)`: the collection is seeded with the base list when it was empty, then trained; the keys stay unique |
| Brain.RobloxLuaAI.GetKnowledgeCount | ai_brain.py:83-92 | the count is the number of stored documents, and 0 without a collection |
| Brain.RobloxLuaAI.GetAllTrainingData | ai_brain.py:131-140 | the documents in `_id` order, or the empty list without a collection |
| Brain.RobloxLuaAI.AddTrainingData | ai_brain.py:94-129 | the new state and the returned flag are exactly `Knowledge.Add` of the old state; unique keys are preserved |
| Brain.RobloxLuaAI.TrainModel | ai_brain.py:142-156 | only the matrix changes, and it becomes `Knowledge.Train` of the old state |
| Brain.RobloxLuaAI.FindBestMatch | ai_brain.py:158-198 | the exact-match scan followed by the similarity fallback returns `Matching.BestMatch` of the current state |
| Brain.RobloxLuaAI.GetResponse | ai_brain.py:228-245 | the result is `Matching.Respond`: the match if any, else the generated reply in the detected language |
| Brain.RobloxLuaAI.DeleteKnowledge | ai_brain.py:247-263 | the new state and the flag are exactly `Knowledge.Delete` of the old state; unique keys are preserved |
| Brain.RobloxLuaAI.GetStats | ai_brain.py:265-290 | the counting loop yields `Stats.StatsOf` of the current state, whose consistency `Stats.StatsConsistent` proves |
| Brain.RobloxLuaAI.LoadBaseKnowledge | ai_brain.py:292-336 | adds the 26 base tuples in order; the new state is `Seeding.SeedAll` of the old state. The returned count is the figure the source only prints (ai_brain.py:336), the number of adds that returned `True` |
| Brain.RobloxLuaAI.AddEach | ai_brain.py:331-334 | the loop over any list of tuples equals `SeedAll`, counting the adds that return `True` |
| Brain.StartupOffline | ai_brain.py:41-50 | without a database, start-up leaves no collection and no matrix |
| Brain.StartupEmpty | ai_brain.py:45-50 | an empty collection ends up holding the 26 base documents in list order, keyed by the base questions, with the matrix fitted on them |
| Brain.StartupExisting | ai_brain.py:45-50 | a non-empty collection is kept as is; the matrix is fitted on its questions exactly when there are at least three and they yield a term |
| Knowledge.FindKey | ai_brain.py:167-168 | the first position holding the key, or `None` exactly when no document holds it |
| Knowledge.UpsertUnique | ai_brain.py:113-117 | an upsert keeps keys unique and leaves exactly one document, the new one, under its key |
| Knowledge.RemoveUnique | ai_brain.py:254 | `delete_one` keeps keys unique and leaves no document under the key |
| Knowledge.NoCollectionDefaults | ai_brain.py:85-86 | without a collection, add and delete return `False` and change nothing, and there is no data |
| Knowledge.AddStoresOneEntry | ai_brain.py:100-117 | after any add, exactly one document carries the normalised question: the one just written, with the answer stripped |
| Knowledge.AddUpdatesInPlace | ai_brain.py:113-126 | an existing key is updated in place, and the flag is `True` exactly when the stored document changed |
| Knowledge.AddAppendsNewKey | ai_brain.py:113-123 | a new key is appended at the end of the `_id` order and the flag is `True` |
| Knowledge.DeleteRemovesKey | ai_brain.py:247-263 | delete returns `True` exactly when the key was stored; it removes that one document and keeps the others in order |
| Knowledge.AddThenDeleteRestores | ai_brain.py:94-129 | adding a new question and then deleting it restores the stored documents |
| Knowledge.TrainRule | ai_brain.py:142-156 | fewer than three documents leave the engine unchanged; otherwise the matrix is refitted on every question in order, unless no question yields a term |
| Knowledge.HasTermExactly | ai_brain.py:153 | a question yields a term exactly when it has two adjacent word characters |
| Knowledge.FitsExactly | ai_brain.py:153-156 | the fit succeeds exactly when some question yields a term |
| Knowledge.TrainedStaysTrained | ai_brain.py:142-156 | once a matrix exists, no later add, delete or train removes it |
| Knowledge.OperationsKeepWellformed | ai_brain.py:75 | train, add and delete keep the keys unique |
| Knowledge.AddRefreshesIndex | ai_brain.py:119-123 | a successful add with three or more documents whose questions yield a term leaves the matrix fitted on exactly the current questions |
| Knowledge.DeleteBelowMinimumKeepsOldIndex | ai_brain.py:256-258 | a delete that leaves fewer than three documents keeps the previous matrix |
| Matching.ArgMaxFirst | ai_brain.py:183 | the index returned is a maximum of the scores, and the first one |
| Matching.FirstMaxUnique | ai_brain.py:183 | at most one index is the first maximum |
| Matching.EmptyStoreNoMatch | ai_brain.py:163-164 | an empty store never matches |
| Matching.ExactMatchFirst | ai_brain.py:166-175 | a stored key is answered with its document, confidence 1.0 and source `exact_match`, whatever the scores |
| Matching.UntrainedOnlyExact | ai_brain.py:178 | without a matrix only exact matches are found |
| Matching.SimilarityRule | ai_brain.py:177-198 | with no exact match, the answer is the document at the first maximal score; it is accepted exactly when the score is above 0.3 and the row is within the data |
| Matching.FreshIndexAnswersBestRow | ai_brain.py:178-194 | with a matrix fitted on the current questions, a match is found exactly when the best score is above 0.3, and it is that row's document |
| Matching.StaleIndexShift | ai_brain.py:177-196 | after a delete takes a fresh three-document store down to two, the three-row matrix stays. With no exact match, best row `k` above 0.3 and deleted position `i`, the answer is the old document `k` when `k < i`, the old document `k + 1` when `i <= k < 2`, and nothing when `k == 2` (the `IndexError` is caught) |
| Matching.AddThenExactMatch | ai_brain.py:100-175 | once added, a question is matched exactly under any casing or outer whitespace |
| Matching.DeleteThenNoExactMatch | ai_brain.py:160-175 | after a delete the key never matches exactly |
| Matching.FallbackResponse | ai_brain.py:236-245 | with no match, the reply is generated, with confidence 0.0, category `unknown`, `found` false and the detected language |
| Matching.ResponseConfidence | ai_brain.py:169-245 | `found` holds exactly when the reply was not generated. For scores in [0, 1], the confidence is 1.0 for an exact match, above 0.3 for a similarity match, and 0.0 with category `unknown` for a generated reply |
| Language.Count | ai_brain.py:204-205 | the count is at most the number of words: all of them exactly when every word is in the vocabulary, none exactly when no word is |
| Language.DetectLanguage | ai_brain.py:200-207 | the result is always `'tl'` or `'en'` |
| Language.CountAppend | ai_brain.py:204-205 | counts add up over concatenated word lists |
| Language.CountMonotone | ai_brain.py:204-205 | a larger vocabulary never counts fewer words |
| Language.NoMarkerIsEnglish | ai_brain.py:207 | a text without Tagalog marker words is English |
| Language.SharedWordsAreEnglish | ai_brain.py:204-207 | a text made only of words in both vocabularies is English (a tie) |
| Language.DetectIgnoresCase | ai_brain.py:202 | case never changes the detected language |
| Language.DetectJoin | ai_brain.py:202-207 | joining two texts of the same language with whitespace keeps that language |
| Reply.GenerateResponse | ai_brain.py:209-226 | the reply is the text of the first keyword group (`TopicOf`: lua, then gui, then executor, else default) mentioned by the question. It is one of the English texts exactly when `lang` is `'en'`; `ReplyDeterminesTopic`, `LuaFirst`, `GuiSecond` and `ExecutorOnlyBySingleWords` pin down the group; `lang` defaults to `'en'` |
| Reply.ReplyDeterminesTopic | ai_brain.py:209-226 | equal replies come from the same keyword group, and both or neither are English |
| Reply.LuaFirst | ai_brain.py:217-218 | a Lua word wins over every other group |
| Reply.GuiSecond | ai_brain.py:220-221 | the GUI reply is given exactly when a GUI word is present and no Lua word is |
| Reply.ExecutorOnlyBySingleWords | ai_brain.py:215-224 | the executor reply is given exactly when `executor`, `loadstring` or `getgenv` is present and no Lua or GUI word is; `script hub` never matches |
| ReplyText.EnglishIsNotTagalog | ai_brain.py:218-226 | no English reply equals a Tagalog one |
| ReplyText.EnglishInjective | ai_brain.py:218-226 | each keyword group has its own English reply |
| ReplyText.TagalogInjective | ai_brain.py:218-226 | each keyword group has its own Tagalog reply |
| Stats.TallyCounts | ai_brain.py:276-277 | the counter has exactly the occurring values as keys, each counted as often as it occurs |
| Stats.TallyTotal | ai_brain.py:276-277 | the counts add up to the number of documents counted |
| Stats.TallyBounds | ai_brain.py:276-277 | every count is between 1 and the number of documents |
| Stats.StatsConsistent | ai_brain.py:265-290 | in the report, each breakdown sums to `training_examples`, its keys are exactly the values present, `categories` is at most `training_examples`, and `is_trained` tells whether a matrix exists; without a collection everything is zero |
| Stats.AccuracyBands | ai_brain.py:288 | accuracy is 0.85 above ten documents, 0.5 above three, and 0.0 otherwise |
| Stats.AccuracyMonotone | ai_brain.py:288 | accuracy never drops as the store grows, and stays within [0, 0.85] |
| Seeding.SeedWithoutCollection | ai_brain.py:96-98 | without a collection, seeding stores nothing and counts 0 |
| Seeding.SeedAllAppend | ai_brain.py:331-334 | seeding `a + b` is seeding `a` and then `b` on the resulting engine: the engines agree and the counts add up |
| Seeding.SeedNewKeys | ai_brain.py:331-334 | tuples with distinct new keys are each appended in order and each counted |
| SeedData.BaseQuestionsNormal | ai_brain.py:297-328 | every base question is already its own key |
| SeedData.BaseQuestionsDistinct | ai_brain.py:297-328 | the 26 base questions are pairwise different |
| SeedData.SeedEmptyStore | ai_brain.py:292-336 | seeding an empty store leaves the 26 base documents in list order, counts 26, and leaves the matrix fitted on the base questions |
| Text.NormalizeIsNormal | ai_brain.py:100 | `lower().strip()` yields a key with no capital the model's case mapping covers, and no whitespace at either end |
| Text.NormalizeIdempotent | ai_brain.py:100 | normalising a key again changes nothing |
| Text.NormalizeIgnoresCase | ai_brain.py:160 | lower-casing a question first does not change its key |
| Text.NormalizeIgnoresPadding | ai_brain.py:253 | whitespace before or after a question does not change its key |
| Text.SplitJoin | ai_brain.py:202 | `split()` on two texts joined by whitespace gives the words of each, in order |
| Text.PhraseIsNeverToken | ai_brain.py:211-223 | a phrase containing whitespace is never a token |

## Left out

- The database itself: no MongoDB I/O, connection string, ping or index creation. The model starts from what `connect_db` found (`stored`): the documents, with unique keys, or nothing.
- The connection's truthiness: `if not self.collection` (ai_brain.py:85, 96, 133, 249) is modelled as "there is no collection". That is pymongo 3's behaviour, where a collection object is truthy. From pymongo 4 on, testing a collection's truth value raises `NotImplementedError`, and these tests sit outside any `try`. Under pymongo 4, whenever the database is reachable, `__init__` fails at its first `get_knowledge_count()` and so does every core operation. The model does not describe that.
- NLTK downloads and corpora: the English stopword set is a parameter of the constructor.
- TF-IDF vectorisation and cosine similarity: the matrix is the list of questions it was fitted on, and the similarity row for a question is the `scores` parameter. Term weights, `max_features` and n-grams are not modelled.
- Knowledge.HasTerm: whether a question yields a term is decided with ASCII word characters (`[A-Za-z0-9_]`), not Unicode `\w`.
- Time: `created_at` is the `now` parameter. The 26 base entries are all written with the same `now`.
- Logging (`print`) and the module-level singleton `ai`.
- Exception paths other than those modelled. Two are modelled. When the questions yield no term, the fit fails and the model keeps the previous matrix, usable as before (see the next line). When the stale-row `IndexError` is raised, it ends in no match. Database errors on count, add, fetch and delete are not modelled.
- Matching.SimilarityRule / Brain.RobloxLuaAI.TrainModel / Brain.RobloxLuaAI.FindBestMatch: a failed refit is modelled as in scikit-learn before 1.0: the previous matrix stays and keeps answering. From scikit-learn 1.0 on, `fit_transform` replaces its idf transformer before it raises the empty-vocabulary `ValueError`. The `try` at ai_brain.py:152-156 catches the error and `self.vectors` keeps its old value, but every later `transform` (ai_brain.py:180) raises `NotFittedError`, caught at ai_brain.py:195-196. So the similarity path returns no match until a fit succeeds. The model does not describe that.
- Stats.StatsOf / Brain.RobloxLuaAI.GetStats: `Entry` always carries `category` and `language`. A stored document that lacks them is not modelled, and neither are the `.get` defaults (`'general'`, `'en'`) that `get_stats` would apply to it. Such a document can only come from code other than `add_training_data`, for example a document already in the collection when `connect_db` runs (the constructor's `stored`).
- `app.py`, which only wraps the engine in HTTP routes, is not part of this model.
- Text.Lower / Text.Normalize / Text.NormalizeIsNormal: case mapping covers ASCII, Latin-1, Latin Extended-A, the basic Greek capitals (U+0391 to U+03A9) and the basic Cyrillic capitals (U+0400 to U+042F). Three things are not modelled: other cased letters (Latin Extended-B onwards, accented Greek, Armenian, fullwidth forms and so on) are kept as they are; `İ` (U+0130), which Python lowers to two characters, is kept; and Python's final-sigma rule (`Σ` at the end of a word lowers to `ς`) is not applied, so `Σ` always becomes `σ`.
