/**
 * `recommendMajors` (files_work.js): the weighted dot product of the user's
 * category scores against every major's weight row, then a stable sort by
 * score, largest first. The weight file is read and parsed by the caller.
 */
module MajorRanking {

  /** One own property of the `userScores` object, in key order. */
  datatype Metric = Metric(name: string, value: real)

  /** One own property of the parsed weight file: a major and its weights. */
  datatype MajorWeights = MajorWeights(major: string, weights: map<string, real>)

  datatype RankedMajor = RankedMajor(major: string, score: real)

  /** `weights[metric] || 0`. */
  function WeightOf(weights: map<string, real>, metric: string): (r: real)
  {
    if metric in weights then weights[metric] else 0.0
  }

  /** The dot product the inner loop of `recommendMajors` accumulates. */
  function WeightedScore(userScores: seq<Metric>, weights: map<string, real>): (r: real)
  {
    if |userScores| == 0 then 0.0
    else
      var last := userScores[|userScores| - 1];
      WeightedScore(userScores[..|userScores| - 1], weights) + last.value * WeightOf(weights, last.name)
  }

  /** A major whose weight row names none of the user's metrics scores 0. */
  lemma {:induction false} UnweightedMajorScoresZero(userScores: seq<Metric>, weights: map<string, real>)
    requires forall k :: 0 <= k < |userScores| ==> userScores[k].name !in weights
    ensures WeightedScore(userScores, weights) == 0.0
  {
    if |userScores| > 0 {
      UnweightedMajorScoresZero(userScores[..|userScores| - 1], weights);
    }
  }

  /** Raising one user score by `d` raises a major's score by `d` times that
      metric's weight: the score is linear in each user value. */
  lemma {:induction false} WeightedScoreLinear(userScores: seq<Metric>, weights: map<string, real>, k: nat, d: real)
    requires k < |userScores|
    ensures WeightedScore(userScores[k := Metric(userScores[k].name, userScores[k].value + d)], weights)
            == WeightedScore(userScores, weights) + d * WeightOf(weights, userScores[k].name)
  {
    var raised := userScores[k := Metric(userScores[k].name, userScores[k].value + d)];
    var n := |userScores| - 1;
    if k < n {
      assert raised[..n] == userScores[..n][k := Metric(userScores[k].name, userScores[k].value + d)];
      WeightedScoreLinear(userScores[..n], weights, k, d);
    } else {
      assert raised[..n] == userScores[..n];
    }
  }

  /** The unsorted `results` array: one entry per major, in weight-file order. */
  function Scored(userScores: seq<Metric>, table: seq<MajorWeights>): (r: seq<RankedMajor>)
  {
    seq(|table|, i requires 0 <= i < |table| => RankedMajor(table[i].major, WeightedScore(userScores, table[i].weights)))
  }

  function MajorsOf(ranked: seq<RankedMajor>): (r: seq<string>)
  {
    seq(|ranked|, i requires 0 <= i < |ranked| => ranked[i].major)
  }

  function MajorNames(table: seq<MajorWeights>): (r: seq<string>)
  {
    seq(|table|, i requires 0 <= i < |table| => table[i].major)
  }

  ghost predicate NonIncreasing(ranked: seq<RankedMajor>)
  {
    forall i, j :: 0 <= i < j < |ranked| ==> ranked[i].score >= ranked[j].score
  }

  /** The entries of `ranked` whose score is `v`, in order. */
  function WithScore(ranked: seq<RankedMajor>, v: real): (r: seq<RankedMajor>)
  {
    if |ranked| == 0 then []
    else (if ranked[0].score == v then [ranked[0]] else []) + WithScore(ranked[1..], v)
  }

  /** Places `x` before the first entry that does not score more than it. */
  function Insert(x: RankedMajor, sorted: seq<RankedMajor>): (r: seq<RankedMajor>)
  {
    if |sorted| == 0 || sorted[0].score <= x.score then [x] + sorted
    else [sorted[0]] + Insert(x, sorted[1..])
  }

  /** `results.sort((a, b) => b.score - a.score)`: a stable sort, largest score first. */
  function SortByScore(results: seq<RankedMajor>): (r: seq<RankedMajor>)
  {
    if |results| == 0 then [] else Insert(results[0], SortByScore(results[1..]))
  }

  lemma {:induction false} InsertPermutes(x: RankedMajor, sorted: seq<RankedMajor>)
    ensures multiset(Insert(x, sorted)) == multiset{x} + multiset(sorted)
    ensures multiset(MajorsOf(Insert(x, sorted))) == multiset{x.major} + multiset(MajorsOf(sorted))
  {
    if |sorted| > 0 && sorted[0].score > x.score {
      InsertPermutes(x, sorted[1..]);
      assert sorted == [sorted[0]] + sorted[1..];
      assert MajorsOf(sorted) == [sorted[0].major] + MajorsOf(sorted[1..]);
      assert MajorsOf(Insert(x, sorted)) == [sorted[0].major] + MajorsOf(Insert(x, sorted[1..]));
    } else {
      assert MajorsOf(Insert(x, sorted)) == [x.major] + MajorsOf(sorted);
    }
  }

  lemma {:induction false} InsertSorted(x: RankedMajor, sorted: seq<RankedMajor>)
    requires NonIncreasing(sorted)
    ensures NonIncreasing(Insert(x, sorted))
  {
    if |sorted| > 0 && sorted[0].score > x.score {
      var tail := sorted[1..];
      InsertSorted(x, tail);
      InsertPermutes(x, tail);
      forall e | e in Insert(x, tail) ensures sorted[0].score >= e.score {
        assert e in multiset(Insert(x, tail));
      }
    }
  }

  lemma {:induction false} InsertStable(x: RankedMajor, sorted: seq<RankedMajor>, v: real)
    ensures WithScore(Insert(x, sorted), v) ==
              (if x.score == v then [x] else []) + WithScore(sorted, v)
  {
    if |sorted| > 0 && sorted[0].score > x.score {
      InsertStable(x, sorted[1..], v);
    } else {
      assert ([x] + sorted)[1..] == sorted;
    }
  }

  lemma {:induction false} SortByScoreSorted(results: seq<RankedMajor>)
    ensures NonIncreasing(SortByScore(results))
  {
    if |results| > 0 {
      SortByScoreSorted(results[1..]);
      InsertSorted(results[0], SortByScore(results[1..]));
    }
  }

  lemma {:induction false} SortByScorePermutes(results: seq<RankedMajor>)
    ensures multiset(SortByScore(results)) == multiset(results)
  {
    if |results| > 0 {
      var tail := results[1..];
      SortByScorePermutes(tail);
      InsertPermutes(results[0], SortByScore(tail));
      assert results == [results[0]] + tail;
    }
  }

  lemma {:induction false} SortByScoreKeepsMajors(results: seq<RankedMajor>)
    ensures multiset(MajorsOf(SortByScore(results))) == multiset(MajorsOf(results))
  {
    if |results| > 0 {
      var tail := results[1..];
      SortByScoreKeepsMajors(tail);
      InsertPermutes(results[0], SortByScore(tail));
      assert MajorsOf(results) == [results[0].major] + MajorsOf(tail);
    }
  }

  /** The sort is stable: the entries of any one score keep their relative order. */
  lemma {:induction false} SortByScoreStable(results: seq<RankedMajor>, v: real)
    ensures WithScore(SortByScore(results), v) == WithScore(results, v)
  {
    if |results| > 0 {
      SortByScoreStable(results[1..], v);
      InsertStable(results[0], SortByScore(results[1..]), v);
    }
  }

  ghost predicate Distinct(s: seq<string>)
  {
    forall i, j :: 0 <= i < j < |s| ==> s[i] != s[j]
  }

  lemma {:induction false} DistinctIffSingleCounts(s: seq<string>)
    ensures Distinct(s) <==> forall x :: multiset(s)[x] <= 1
  {
    if |s| > 0 {
      DistinctIffSingleCounts(s[1..]);
      assert s == [s[0]] + s[1..];
      if Distinct(s) {
        assert s[0] !in s[1..];
      }
      if forall x :: multiset(s)[x] <= 1 {
        assert forall x :: multiset(s[1..])[x] <= multiset(s)[x];
        assert multiset(s)[s[0]] == 1 + multiset(s[1..])[s[0]];
        assert s[0] !in s[1..];
        forall i, j | 0 <= i < j < |s| ensures s[i] != s[j] {
          if i == 0 {
            assert s[j] == s[1..][j - 1];
          } else {
            assert s[i] == s[1..][i - 1] && s[j] == s[1..][j - 1];
          }
        }
      }
    }
  }

  /** A weight file has each major once (its keys are an object's), so the
      ranking has no duplicates and misses no major. */
  lemma RankingHasEachMajorOnce(userScores: seq<Metric>, table: seq<MajorWeights>)
    requires Distinct(MajorNames(table))
    ensures Distinct(MajorsOf(SortByScore(Scored(userScores, table))))
    ensures forall major :: major in MajorsOf(SortByScore(Scored(userScores, table))) <==> major in MajorNames(table)
  {
    var results := Scored(userScores, table);
    SortByScoreKeepsMajors(results);
    assert MajorsOf(results) == MajorNames(table);
    DistinctIffSingleCounts(MajorNames(table));
    DistinctIffSingleCounts(MajorsOf(SortByScore(results)));
    forall major ensures major in MajorsOf(SortByScore(results)) <==> major in MajorNames(table) {
      assert major in MajorsOf(SortByScore(results)) <==> major in multiset(MajorsOf(SortByScore(results)));
    }
  }

  /** `recommendMajors(userScores)` over the parsed weight file `table`. */
  method RecommendMajors(userScores: seq<Metric>, table: seq<MajorWeights>) returns (ranked: seq<RankedMajor>)
    ensures ranked == SortByScore(Scored(userScores, table))
    ensures NonIncreasing(ranked)
    ensures multiset(ranked) == multiset(Scored(userScores, table))
    ensures multiset(MajorsOf(ranked)) == multiset(MajorNames(table))
    ensures forall v :: WithScore(ranked, v) == WithScore(Scored(userScores, table), v)
  {
    var results: seq<RankedMajor> := [];
    var m := 0;
    while m < |table|
      invariant 0 <= m <= |table|
      invariant results == Scored(userScores, table[..m])
    {
      var score := 0.0;
      var k := 0;
      while k < |userScores|
        invariant 0 <= k <= |userScores|
        invariant score == WeightedScore(userScores[..k], table[m].weights)
      {
        var metric := userScores[k];
        score := score + metric.value * WeightOf(table[m].weights, metric.name);
        assert userScores[..k + 1][..k] == userScores[..k];
        k := k + 1;
      }
      assert userScores[..k] == userScores;
      results := results + [RankedMajor(table[m].major, score)];
      m := m + 1;
    }
    assert table[..m] == table;
    ranked := SortByScore(results);
    SortByScoreSorted(results);
    SortByScorePermutes(results);
    SortByScoreKeepsMajors(results);
    assert MajorsOf(results) == MajorNames(table);
    forall v ensures WithScore(ranked, v) == WithScore(results, v) {
      SortByScoreStable(results, v);
    }
  }
}
