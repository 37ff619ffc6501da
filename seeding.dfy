/**
 * The generic part of `_load_base_knowledge`: adding a list of
 * `(question, answer, category, language)` tuples one `add_training_data`
 * call at a time, in list order, and counting the calls that report `True`.
 */
module Seeding {
  import opened Text
  import opened Knowledge

  /** One `(question, answer, category, language)` tuple of the base list. */
  datatype Seed = Seed(question: string, answer: string, category: string, language: string)

  /** The document `add_training_data` writes for a seed. */
  function SeedDoc(b: Seed, now: int): Entry
  {
    MakeDoc(b.question, b.answer, b.category, b.language, now)
  }

  function SeedDocs(seeds: seq<Seed>, now: int): (docs: seq<Entry>)
    ensures |docs| == |seeds| && forall i :: 0 <= i < |seeds| ==> docs[i] == SeedDoc(seeds[i], now)
  {
    seq(|seeds|, i requires 0 <= i < |seeds| => SeedDoc(seeds[i], now))
  }

  /** One more `add_training_data` call on what seeding has done so far, counted when it reports `True`. */
  function SeedNext(prev: (Engine, nat), b: Seed, now: int): (Engine, nat)
  {
    var step := Add(prev.0, b.question, b.answer, b.category, b.language, now);
    (step.0, if step.1 then prev.1 + 1 else prev.1)
  }

  /** Adding the seeds one by one: the engine afterwards and how many adds reported `True`. */
  function SeedAll(st: Engine, seeds: seq<Seed>, now: int): (Engine, nat)
  {
    if seeds == [] then (st, 0)
    else SeedNext(SeedAll(st, seeds[..|seeds| - 1], now), seeds[|seeds| - 1], now)
  }

  /** Seeding one more tuple is one more `add_training_data` call on the engine seeded so far. */
  lemma SeedAllSnoc(st: Engine, seeds: seq<Seed>, k: nat, now: int)
    requires k < |seeds|
    ensures SeedAll(st, seeds[..k + 1], now) == SeedNext(SeedAll(st, seeds[..k], now), seeds[k], now)
  {
    assert seeds[..k + 1][..k] == seeds[..k];
  }

  /** `SeedNext` applied to a known result of `add_training_data`. */
  lemma NextOfAdd(before: Engine, count: nat, b: Seed, now: int, after: Engine, learned: bool)
    requires (after, learned) == Add(before, b.question, b.answer, b.category, b.language, now)
    ensures SeedNext((before, count), b, now) == (after, if learned then count + 1 else count)
  {
  }

  /** Seeding from a count of `offset` on carries the offset through: the engine is the same, the count shifted. */
  lemma NextShift(e: Engine, n: nat, offset: nat, b: Seed, now: int)
    ensures SeedNext((e, offset + n), b, now) == (SeedNext((e, n), b, now).0, offset + SeedNext((e, n), b, now).1)
  {
  }

  /**
   * Seeding `a + b` is seeding `a`, then seeding `b` on the engine that left:
   * the engines agree and the counts add up. Loading the base list in pieces
   * stores the same documents as loading it at once.
   */
  lemma {:induction false} SeedAllAppend(st: Engine, a: seq<Seed>, b: seq<Seed>, now: int)
    ensures var mid := SeedAll(st, a, now);
      SeedAll(st, a + b, now) == (SeedAll(mid.0, b, now).0, mid.1 + SeedAll(mid.0, b, now).1)
    decreases |b|
  {
    var mid := SeedAll(st, a, now);
    if b == [] {
      assert a + b == a;
    } else {
      var init, last := b[..|b| - 1], b[|b| - 1];
      assert (a + b)[..|a + b| - 1] == a + init;
      assert (a + b)[|a + b| - 1] == last;
      SeedAllAppend(st, a, init, now);
      var rest := SeedAll(mid.0, init, now);
      NextShift(rest.0, rest.1, mid.1, last, now);
    }
  }

  /** The loop step of seeding: one more add on the engine seeded so far is seeding one more tuple. */
  lemma SeedAllStep(st: Engine, seeds: seq<Seed>, k: nat, now: int, before: Engine, count: nat, after: Engine, learned: bool)
    requires k < |seeds|
    requires (before, count) == SeedAll(st, seeds[..k], now)
    requires (after, learned) == Add(before, seeds[k].question, seeds[k].answer, seeds[k].category, seeds[k].language, now)
    ensures (after, if learned then count + 1 else count) == SeedAll(st, seeds[..k + 1], now)
  {
    SeedAllSnoc(st, seeds, k, now);
    NextOfAdd(before, count, seeds[k], now, after, learned);
  }

  predicate DistinctKeys(seeds: seq<Seed>)
  {
    forall i, j :: 0 <= i < j < |seeds| ==> Normalize(seeds[i].question) != Normalize(seeds[j].question)
  }

  // ---------------------------------------------------------------------------

  /** Without a collection every add reports `False`: nothing is stored and the count is 0. */
  lemma {:induction false} SeedWithoutCollection(st: Engine, seeds: seq<Seed>, now: int)
    requires st.collection.None?
    ensures SeedAll(st, seeds, now) == (st, 0)
  {
    if seeds != [] {
      SeedWithoutCollection(st, seeds[..|seeds| - 1], now);
    }
  }

  /** One step of seeding: a seed under a new key is appended and reported as learned. */
  lemma SeedStep(st: Engine, b: Seed, now: int)
    requires Wellformed(st) && st.collection.Some?
    requires forall j :: 0 <= j < |Data(st)| ==> Data(st)[j].question != Normalize(b.question)
    ensures Add(st, b.question, b.answer, b.category, b.language, now).1
    ensures var st' := Add(st, b.question, b.answer, b.category, b.language, now).0;
      Wellformed(st') && st'.collection.Some? && Data(st') == Data(st) + [SeedDoc(b, now)] &&
      (|Data(st')| >= MinTrainingSize && Fits(Questions(Data(st'))) ==> IndexFresh(st'))
  {
    AddAppendsNewKey(st, b.question, b.answer, b.category, b.language, now);
    OperationsKeepWellformed(st, b.question, b.answer, b.category, b.language, now);
    AddRefreshesIndex(st, b.question, b.answer, b.category, b.language, now);
  }

  /**
   * Seeds with distinct keys, none of them already stored, are each appended
   * in order and each add reports `True`; the last add leaves the matrix fitted
   * on all questions when there are enough of them.
   */
  lemma {:induction false} SeedNewKeys(st: Engine, seeds: seq<Seed>, now: int)
    requires Wellformed(st) && st.collection.Some?
    requires DistinctKeys(seeds)
    requires forall i, j :: 0 <= i < |seeds| && 0 <= j < |Data(st)| ==> Data(st)[j].question != Normalize(seeds[i].question)
    ensures SeedAll(st, seeds, now).1 == |seeds|
    ensures var st' := SeedAll(st, seeds, now).0;
      Wellformed(st') && st'.collection.Some? && Data(st') == Data(st) + SeedDocs(seeds, now) &&
      (seeds != [] && |Data(st')| >= MinTrainingSize && Fits(Questions(Data(st'))) ==> IndexFresh(st'))
  {
    if seeds == [] {
      assert Data(st) + SeedDocs(seeds, now) == Data(st);
    } else {
      var init, b := seeds[..|seeds| - 1], seeds[|seeds| - 1];
      assert DistinctKeys(init);
      SeedNewKeys(st, init, now);
      var p := SeedAll(st, init, now);
      var q := Add(p.0, b.question, b.answer, b.category, b.language, now);
      assert SeedAll(st, seeds, now) == SeedNext(p, b, now);
      SeedDocsSnoc(seeds, now);
      assert forall k :: 0 <= k < |init| ==> Normalize(init[k].question) != Normalize(b.question) by {
        forall k | 0 <= k < |init| ensures Normalize(init[k].question) != Normalize(b.question) {
          assert init[k] == seeds[k];
        }
      }
      KeyStillNew(Data(st), init, b, now);
      SeedStep(p.0, b, now);
      calc {
        Data(q.0);
        Data(p.0) + [SeedDoc(b, now)];
        (Data(st) + SeedDocs(init, now)) + [SeedDoc(b, now)];
        { AppendAssoc(Data(st), SeedDocs(init, now), [SeedDoc(b, now)]); }
        Data(st) + SeedDocs(seeds, now);
      }
    }
  }

  lemma AppendAssoc(a: seq<Entry>, b: seq<Entry>, c: seq<Entry>)
    ensures (a + b) + c == a + (b + c)
  {
  }

  lemma SeedDocsSnoc(seeds: seq<Seed>, now: int)
    requires seeds != []
    ensures SeedDocs(seeds, now) == SeedDocs(seeds[..|seeds| - 1], now) + [SeedDoc(seeds[|seeds| - 1], now)]
  {
    var init, last := seeds[..|seeds| - 1], seeds[|seeds| - 1];
    var whole, parts := SeedDocs(seeds, now), SeedDocs(init, now) + [SeedDoc(last, now)];
    forall k | 0 <= k < |whole| ensures whole[k] == parts[k] {
      if k < |init| {
        assert seeds[k] == init[k];
      }
    }
  }

  /** A key new to the store and to every earlier seed is still new once those seeds are appended. */
  lemma KeyStillNew(es: seq<Entry>, init: seq<Seed>, b: Seed, now: int)
    requires forall j :: 0 <= j < |es| ==> es[j].question != Normalize(b.question)
    requires forall k :: 0 <= k < |init| ==> Normalize(init[k].question) != Normalize(b.question)
    ensures forall j :: 0 <= j < |es + SeedDocs(init, now)| ==> (es + SeedDocs(init, now))[j].question != Normalize(b.question)
  {
    var docs := SeedDocs(init, now);
    forall j | 0 <= j < |es + docs| ensures (es + docs)[j].question != Normalize(b.question) {
      if j >= |es| {
        assert (es + docs)[j] == docs[j - |es|];
      }
    }
  }
}
