/**
 * What `get_stats` reports: the entry count, a count per category and per
 * language, whether a matrix is fitted, and the accuracy figure.
 */
module Stats {
  import opened Knowledge

  /** The dictionary `get_stats` returns; `totalTrained` and `accuracy` form its nested `stats` entry. */
  datatype Report = Report(trainingExamples: nat, categories: nat, categoryBreakdown: map<string, nat>,
                           isTrained: bool, learningMode: bool, languages: map<string, nat>,
                           totalTrained: nat, accuracy: real)

  /** The category of each document, in order. */
  function Categories(es: seq<Entry>): (cs: seq<string>)
    ensures |cs| == |es| && forall i :: 0 <= i < |es| ==> cs[i] == es[i].category
  {
    if es == [] then [] else Categories(es[..|es| - 1]) + [es[|es| - 1].category]
  }

  /** The language of each document, in order. */
  function Languages(es: seq<Entry>): (ls: seq<string>)
    ensures |ls| == |es| && forall i :: 0 <= i < |es| ==> ls[i] == es[i].language
  {
    if es == [] then [] else Languages(es[..|es| - 1]) + [es[|es| - 1].language]
  }

  /** `d[x] = d.get(x, 0) + 1`. */
  function Bump(m: map<string, nat>, x: string): map<string, nat>
  {
    m[x := (if x in m then m[x] else 0) + 1]
  }

  /** The counter dictionary built by bumping each value in turn (see `TallyCounts`). */
  function Tally(s: seq<string>): map<string, nat>
  {
    if s == [] then map[] else Bump(Tally(s[..|s| - 1]), s[|s| - 1])
  }

  /** The sum of a counter dictionary's values. */
  ghost function SumValues(m: map<string, nat>): nat
    decreases |m|
  {
    if m == map[] then 0
    else
      var k :| k in m;
      m[k] + SumValues(m - {k})
  }

  /** `0.85 if n > 10 else 0.5 if n > 3 else 0.0`. */
  function Accuracy(n: nat): real
  {
    if n > 10 then 0.85 else if n > 3 then 0.5 else 0.0
  }

  /** `get_stats()` of an engine: every figure is derived from the documents in `_id` order. */
  function StatsOf(st: Engine): Report
  {
    var data := Data(st);
    var categories := Tally(Categories(data));
    Report(|data|, |categories|, categories, st.vectors.Some?, true, Tally(Languages(data)), |data|, Accuracy(|data|))
  }

  // ---------------------------------------------------------------------------

  /** The sum does not depend on which key is taken first. */
  lemma {:induction false} SumValuesRemove(m: map<string, nat>, k: string)
    requires k in m
    ensures SumValues(m) == m[k] + SumValues(m - {k})
    decreases |m|
  {
    var k' :| k' in m && SumValues(m) == m[k'] + SumValues(m - {k'});
    if k' != k {
      assert |m - {k'}| < |m|;
      SumValuesRemove(m - {k'}, k);
      assert m - {k'} - {k} == m - {k} - {k'};
      assert |m - {k}| < |m|;
      SumValuesRemove(m - {k}, k');
    }
  }

  /** Bumping one counter by one bumps the sum by one. */
  lemma SumValuesBump(m: map<string, nat>, x: string)
    ensures SumValues(Bump(m, x)) == SumValues(m) + 1
  {
    var m' := Bump(m, x);
    SumValuesRemove(m', x);
    if x in m {
      SumValuesRemove(m, x);
      assert m' - {x} == m - {x};
    } else {
      assert m' - {x} == m;
    }
  }

  /** The counts add up to the number of values counted. */
  lemma {:induction false} TallyTotal(s: seq<string>)
    ensures SumValues(Tally(s)) == |s|
  {
    if s != [] {
      TallyTotal(s[..|s| - 1]);
      SumValuesBump(Tally(s[..|s| - 1]), s[|s| - 1]);
    }
  }

  /** The counter has exactly the values that occur as keys, each counted as often as it occurs. */
  lemma {:induction false} TallyCounts(s: seq<string>)
    ensures forall x :: x in Tally(s) <==> x in s
    ensures forall x :: x in Tally(s) ==> Tally(s)[x] == multiset(s)[x]
  {
    if s != [] {
      var init, last := s[..|s| - 1], s[|s| - 1];
      TallyCounts(init);
      assert s == init + [last];
      assert multiset(s) == multiset(init) + multiset{last};
      forall x ensures x in s <==> x in init || x == last {
        assert x in s <==> x in init + [last];
      }
    }
  }

  /** Every key is counted at least once and at most once per value. */
  lemma TallyBounds(s: seq<string>)
    ensures forall x :: x in Tally(s) ==> 0 < Tally(s)[x] <= |s|
  {
    TallyCounts(s);
    forall x | x in Tally(s) ensures 0 < Tally(s)[x] <= |s| {
      assert |multiset(s)| == |s|;
      MultiplicityBound(multiset(s), x);
    }
  }

  lemma {:induction false} MultiplicityBound(ms: multiset<string>, x: string)
    ensures ms[x] <= |ms|
    decreases |ms|
  {
    if ms != multiset{} {
      var y :| y in ms;
      MultiplicityBound(ms - multiset{y}, x);
    }
  }

  /** Accuracy never drops as the store grows, and stays within [0, 0.85]. */
  lemma AccuracyMonotone(a: nat, b: nat)
    requires a <= b
    ensures 0.0 <= Accuracy(a) <= Accuracy(b) <= 0.85
  {
  }

  /** A counter whose every value is at least one has no more keys than its sum. */
  lemma {:induction false} KeysAtMostSum(m: map<string, nat>)
    requires forall x :: x in m ==> m[x] >= 1
    ensures |m| <= SumValues(m)
    decreases |m|
  {
    if m != map[] {
      var k :| k in m;
      SumValuesRemove(m, k);
      KeysAtMostSum(m - {k});
    }
  }

  /**
   * A counter built from a list: its counts add up to the list's length, its
   * keys are exactly the values in the list, and there are no more keys than
   * values.
   */
  lemma TallyFacts(s: seq<string>)
    ensures SumValues(Tally(s)) == |s|
    ensures forall x :: x in Tally(s) <==> x in s
    ensures |Tally(s)| <= |s|
  {
    TallyTotal(s);
    TallyCounts(s);
    TallyBounds(s);
    KeysAtMostSum(Tally(s));
  }

  lemma CategoriesHave(es: seq<Entry>, c: string)
    ensures c in Categories(es) <==> exists i :: 0 <= i < |es| && es[i].category == c
  {
    if c in Categories(es) {
      var i :| 0 <= i < |es| && Categories(es)[i] == c;
    }
  }

  lemma LanguagesHave(es: seq<Entry>, l: string)
    ensures l in Languages(es) <==> exists i :: 0 <= i < |es| && es[i].language == l
  {
    if l in Languages(es) {
      var i :| 0 <= i < |es| && Languages(es)[i] == l;
    }
  }

  /** One more document is one more count under its category and under its language. */
  lemma TallyStep(es: seq<Entry>, i: nat)
    requires i < |es|
    ensures Tally(Categories(es[..i + 1])) == Bump(Tally(Categories(es[..i])), es[i].category)
    ensures Tally(Languages(es[..i + 1])) == Bump(Tally(Languages(es[..i])), es[i].language)
  {
    assert es[..i + 1][..i] == es[..i];
  }

  /**
   * What `get_stats` reports is consistent: the category counts and the
   * language counts each add up to the number of entries, the keys of each
   * breakdown are exactly the values that occur, the number of categories is
   * at most the number of entries, and `is_trained` says whether a matrix is
   * fitted. With no collection every figure is zero.
   */
  lemma StatsConsistent(st: Engine)
    ensures var s := StatsOf(st);
      s.trainingExamples == s.totalTrained == |Data(st)| &&
      SumValues(s.categoryBreakdown) == s.trainingExamples &&
      SumValues(s.languages) == s.trainingExamples &&
      (forall c :: c in s.categoryBreakdown <==> exists i :: 0 <= i < |Data(st)| && Data(st)[i].category == c) &&
      (forall l :: l in s.languages <==> exists i :: 0 <= i < |Data(st)| && Data(st)[i].language == l) &&
      s.categories == |s.categoryBreakdown| <= s.trainingExamples &&
      s.isTrained == st.vectors.Some? && s.learningMode &&
      (st.collection.None? ==> s.trainingExamples == 0 && s.categoryBreakdown == map[] && s.languages == map[])
  {
    var data := Data(st);
    TallyFacts(Categories(data));
    TallyFacts(Languages(data));
    forall c ensures c in Tally(Categories(data)) <==> exists i :: 0 <= i < |data| && data[i].category == c {
      CategoriesHave(data, c);
    }
    forall l ensures l in Tally(Languages(data)) <==> exists i :: 0 <= i < |data| && data[i].language == l {
      LanguagesHave(data, l);
    }
  }

  /** The accuracy figure: 0.85 above ten entries, 0.5 above three, 0.0 otherwise. */
  lemma AccuracyBands(st: Engine)
    ensures var n, a := |Data(st)|, StatsOf(st).accuracy;
      (a == 0.85 <==> n > 10) && (a == 0.5 <==> 3 < n <= 10) && (a == 0.0 <==> n <= 3)
  {
  }
}
