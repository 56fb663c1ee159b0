/**
 * The `GET /test_ans` handler (index.js): rebuild the seven scores from the
 * query string, rank the majors, keep the first fifteen and look up their
 * descriptions; the progress bars show the seven scores in key order.
 */
module TestResults {
  import opened Wrappers
  import opened QuizScoring
  import MajorRanking
  import FieldLookup

  /** How many ranked majors the result page shows. */
  const MaxSuggestions: nat := 15

  /** One progress bar of the result page. */
  datatype ProgressItem = ProgressItem(name: string, value: real)  // the `label` and `value` members

  /** The score one category gets back from the query: `Number(req.query[key])`
      when finite, else 0. `query` holds the parameters after `Number(...)`. */
  function RebuiltScore(query: map<string, Num>, c: Category): (r: real)
    ensures r == 0.0 || (Name(c) in query && query[Name(c)] == Finite(r))
    ensures Name(c) in query && query[Name(c)].Finite? ==> query[Name(c)] == Finite(r)
  {
    if Name(c) in query && query[Name(c)].Finite? then query[Name(c)].value else 0.0
  }

  /** The query string the `POST /test` handler redirects with, as numbers. */
  function QueryOf(percentages: map<Category, int>): (r: map<string, Num>)
  {
    map c: Category | c in percentages :: Name(c) := Finite(percentages[c] as real)
  }

  /** Rebuilding from the redirect's query gives back the seven percentages
      the scoring produced. */
  lemma {:induction false} RebuildRoundTrip(percentages: map<Category, int>)
    requires forall c: Category :: c in percentages
    ensures forall c: Category :: RebuiltScore(QueryOf(percentages), c) == percentages[c] as real
  {
    forall c: Category ensures RebuiltScore(QueryOf(percentages), c) == percentages[c] as real {
      var q := QueryOf(percentages);
      assert Name(c) in q;
      var d: Category :| d in percentages && Name(d) == Name(c) && q[Name(c)] == Finite(percentages[d] as real);
      NameInjective(c, d);
    }
  }

  lemma NameInjective(c: Category, d: Category)
    requires Name(c) == Name(d)
    ensures c == d
  {
    assert CategoryNamed(Name(c)) == Some(c);
  }

  /** The rebuild loop of `GET /test_ans`. */
  method RebuildScores(query: map<string, Num>) returns (scores: map<Category, real>)
    ensures forall c: Category :: c in scores && scores[c] == RebuiltScore(query, c)
    ensures scores == RebuiltScores(query)
    ensures forall c: Category :: Name(c) !in query ==> scores[c] == 0.0
    ensures forall c: Category :: Name(c) in query && query[Name(c)].NonFinite? ==> scores[c] == 0.0
  {
    var keys := Categories;
    scores := map[];
    var i := 0;
    while i < |keys|
      invariant 0 <= i <= |keys|
      invariant forall c :: c in keys[..i] ==> c in scores && scores[c] == RebuiltScore(query, c)
    {
      var key := keys[i];
      var value := if Name(key) in query then query[Name(key)] else NonFinite;
      scores := scores[key := if value.Finite? then value.value else 0.0];
      assert keys[..i + 1] == keys[..i] + [key];
      i := i + 1;
    }
    assert keys[..i] == keys;
    CategoriesAreTheSevenKeys();
    assert scores.Keys == RebuiltScores(query).Keys;
  }

  /** The scores as the object `recommendMajors` iterates over, in key order. */
  function UserScores(scores: map<Category, real>): (r: seq<MajorRanking.Metric>)
    requires forall c: Category :: c in scores
    ensures |r| == 7
    ensures forall i, j :: 0 <= i < j < |r| ==> r[i].name != r[j].name
    ensures forall c: Category :: exists i :: 0 <= i < |r| && r[i] == MajorRanking.Metric(Name(c), scores[c])
  {
    CategoriesAreTheSevenKeys();
    var r := seq(|Categories|, i requires 0 <= i < |Categories| => MajorRanking.Metric(Name(Categories[i]), scores[Categories[i]]));
    assert forall c: Category :: r[KeyIndex(c)] == MajorRanking.Metric(Name(c), scores[c]);
    r
  }

  /** The scores the rebuild loop produces, as one value. */
  function RebuiltScores(query: map<string, Num>): (r: map<Category, real>)
    ensures forall c: Category :: c in r && r[c] == RebuiltScore(query, c)
  {
    CategoriesAreTheSevenKeys();
    map c: Category | c in Categories :: RebuiltScore(query, c)
  }

  /** The majors of the first `min(15, |ranked|)` entries, in rank order. */
  function TopMajors(ranked: seq<MajorRanking.RankedMajor>): (r: seq<string>)
    ensures |r| == if |ranked| < MaxSuggestions then |ranked| else MaxSuggestions
    ensures forall k :: 0 <= k < |r| ==> r[k] == ranked[k].major
  {
    var n := if |ranked| < MaxSuggestions then |ranked| else MaxSuggestions;
    MajorRanking.MajorsOf(ranked)[..n]
  }

  /** The titles of the first `min(15, |ranked|)` ranked majors, in rank order. */
  method TopTitles(ranked: seq<MajorRanking.RankedMajor>) returns (titles: seq<string>)
    ensures |titles| == if |ranked| < MaxSuggestions then |ranked| else MaxSuggestions
    ensures forall k :: 0 <= k < |titles| ==> titles[k] == ranked[k].major
    ensures titles == TopMajors(ranked)
  {
    titles := [];
    var index := 0;
    while index < MaxSuggestions && index < |ranked|
      invariant 0 <= index <= MaxSuggestions && index <= |ranked|
      invariant |titles| == index
      invariant forall k :: 0 <= k < index ==> titles[k] == ranked[k].major
    {
      titles := titles + [ranked[index].major];
      index := index + 1;
    }
  }

  /** The progress bars: one per category, in key order, with its score. */
  method ProgressItems(scores: map<Category, real>) returns (items: seq<ProgressItem>)
    requires forall c: Category :: c in scores
    ensures |items| == 7
    ensures forall k :: 0 <= k < |items| ==> items[k] == ProgressItem(Name(Categories[k]), scores[Categories[k]])
  {
    items := [];
    var k := 0;
    while k < |Categories|
      invariant 0 <= k <= |Categories|
      invariant |items| == k
      invariant forall m :: 0 <= m < k ==> items[m] == ProgressItem(Name(Categories[m]), scores[Categories[m]])
    {
      var key := Categories[k];
      items := items + [ProgressItem(Name(key), scores[key])];
      k := k + 1;
    }
  }

  /** The whole of `GET /test_ans` between the query and the rendered view. */
  method ShowResults(query: map<string, Num>, table: seq<MajorRanking.MajorWeights>, data: seq<FieldLookup.SubfieldRecord>)
    returns (progressItems: seq<ProgressItem>, suggestedMajors: seq<FieldLookup.Description>)
    ensures |progressItems| == 7
    ensures forall k :: 0 <= k < 7 ==>
              progressItems[k] == ProgressItem(Name(Categories[k]), RebuiltScore(query, Categories[k]))
    ensures suggestedMajors == FieldLookup.Descriptions(
              TopMajors(MajorRanking.SortByScore(MajorRanking.Scored(UserScores(RebuiltScores(query)), table))), data)
    ensures |suggestedMajors| <= MaxSuggestions
    ensures forall k :: 0 <= k < |suggestedMajors| ==>
              suggestedMajors[k].title in MajorRanking.MajorNames(table) &&
              FieldLookup.HasRecord(data, suggestedMajors[k].title)
  {
    var scores := RebuildScores(query);
    var ranked := MajorRanking.RecommendMajors(UserScores(scores), table);
    var titles := TopTitles(ranked);
    progressItems := ProgressItems(scores);
    suggestedMajors := FieldLookup.GetDescriptions(titles, data);
    FieldLookup.DescriptionsMatchTitles(titles, data);
    FieldLookup.FoundTitlesSubsequence(titles, data);
    forall k | 0 <= k < |suggestedMajors|
      ensures suggestedMajors[k].title in MajorRanking.MajorNames(table)
    {
      var t := suggestedMajors[k].title;
      assert t == FieldLookup.TitlesOf(suggestedMajors)[k];
      assert t in FieldLookup.FoundTitles(titles, data);
      var m :| 0 <= m < |titles| && titles[m] == t;
      assert ranked[m].major == t;
      assert MajorRanking.MajorsOf(ranked)[m] == t;
      assert t in multiset(MajorRanking.MajorsOf(ranked));
      assert t in multiset(MajorRanking.MajorNames(table));
    }
  }
}
