/**
 * The scoring done by the `POST /test` handler (index.js): validate the
 * submission, sum each well-formed answer's delta into its category, then
 * turn every sum into a percentage of that category's base score.
 */
module QuizScoring {
  import opened Wrappers

  /** The closed set of seven categories. */
  datatype Category = Analytical | Data | AI | SoftwareDev | Hardware | Security | Creative

  /** The categories in the key order of the `scores` object literal. */
  const Categories: seq<Category> := [Analytical, Data, AI, SoftwareDev, Hardware, Security, Creative]

  function Name(c: Category): (r: string)
  {
    match c
    case Analytical => "Analytical"
    case Data => "Data"
    case AI => "AI"
    case SoftwareDev => "SoftwareDev"
    case Hardware => "Hardware"
    case Security => "Security"
    case Creative => "Creative"
  }

  /** `allowedTargets.has(s)`, giving the category when it holds. */
  function CategoryNamed(s: string): (r: Option<Category>)
    ensures r.Some? ==> Name(r.value) == s
    ensures r.None? ==> forall c: Category :: Name(c) != s
  {
    if s == "Analytical" then Some(Analytical)
    else if s == "Data" then Some(Data)
    else if s == "AI" then Some(AI)
    else if s == "SoftwareDev" then Some(SoftwareDev)
    else if s == "Hardware" then Some(Hardware)
    else if s == "Security" then Some(Security)
    else if s == "Creative" then Some(Creative)
    else None
  }

  /** The seven keys, each once; every category is one of them. */
  lemma CategoriesAreTheSevenKeys()
    ensures |Categories| == 7
    ensures forall c: Category :: c in Categories
    ensures forall i, j :: 0 <= i < j < |Categories| ==> Name(Categories[i]) != Name(Categories[j])
  {
    forall c: Category ensures c in Categories {
      match c
      case Analytical => assert Categories[0] == c;
      case Data => assert Categories[1] == c;
      case AI => assert Categories[2] == c;
      case SoftwareDev => assert Categories[3] == c;
      case Hardware => assert Categories[4] == c;
      case Security => assert Categories[5] == c;
      case Creative => assert Categories[6] == c;
    }
  }

  /** Where a category sits in the key order. */
  function KeyIndex(c: Category): (i: nat)
    ensures i < |Categories| && Categories[i] == c
  {
    match c
    case Analytical => 0
    case Data => 1
    case AI => 2
    case SoftwareDev => 3
    case Hardware => 4
    case Security => 5
    case Creative => 6
  }

  /** The `baseScores` table: the raw score that counts as 100%. */
  function BaseScore(c: Category): (r: int)
    ensures r > 0
  {
    match c
    case Analytical => 820
    case Data => 1000
    case AI => 820
    case SoftwareDev => 200
    case Hardware => 260
    case Security => 200
    case Creative => 700
  }

  /** A number after `Number(...)`: finite, or NaN / an infinity. */
  datatype Num = Finite(value: real) | NonFinite

  /** The outcome of `JSON.parse(answer.e)` followed by `Number(parsed[1])`:
      a parse error, a value that is not a 2-element array, a 2-element array
      whose second element `Number()` throws on (an object whose `valueOf`
      and `toString` give no primitive), or a pair whose first element is a
      string. */
  datatype Decoded = Malformed | NotPair | ConversionThrows | Pair(target: string, delta: Num)

  /** One element of the submitted `answers` array. */
  datatype Answer = Absent | NoText | Encoded(e: string)

  /** `req.body.answers`: not an array, or an array. */
  datatype Submission = NotArray | Answers(items: seq<Answer>)

  /** What the handler does next: reject the submission, fail as a whole
      (the outer `catch`, "something went wrong"), or go on with the seven
      percentages. */
  datatype Outcome = InvalidSubmission | Failed | Scored(percentages: map<Category, int>)

  /** A well-formed answer: the category it targets and the delta it adds. */
  datatype Vote = Vote(category: Category, delta: real)

  /** Some answer reaches `Number(parsedAnswer[1])` with a value it throws on;
      that throw is outside the inner `try`, so it ends the whole handler. */
  ghost predicate SomeConversionThrows(answers: seq<Answer>, decode: string -> Decoded)
  {
    exists i :: 0 <= i < |answers| && answers[i].Encoded? && decode(answers[i].e).ConversionThrows?
  }

  /** The checks of the loop body: None for every answer the loop `continue`s past. */
  function Accept(a: Answer, decode: string -> Decoded): (r: Option<Vote>)
    ensures r.Some? <==>
              && a.Encoded?
              && decode(a.e).Pair?
              && (exists c: Category :: Name(c) == decode(a.e).target)
              && decode(a.e).delta.Finite?
    ensures r.Some? ==> Name(r.value.category) == decode(a.e).target && r.value.delta == decode(a.e).delta.value
  {
    if !a.Encoded? then None
    else
      var parsed := decode(a.e);
      if !parsed.Pair? then None
      else
        var target := CategoryNamed(parsed.target);
        if target.None? || !parsed.delta.Finite? then None
        else Some(Vote(target.value, parsed.delta.value))
  }

  /** What answer `a` adds to the accumulator of category `c`. */
  function Contribution(a: Answer, decode: string -> Decoded, c: Category): (r: real)
  {
    match Accept(a, decode)
    case Some(v) => if v.category == c then v.delta else 0.0
    case None => 0.0
  }

  /** The sum of the deltas of the well-formed answers that target `c`. */
  function Total(answers: seq<Answer>, decode: string -> Decoded, c: Category): (r: real)
  {
    if |answers| == 0 then 0.0
    else Contribution(answers[0], decode, c) + Total(answers[1..], decode, c)
  }

  /** The accumulators all at zero, as the `scores` literal starts them. */
  function Zeros(): (r: map<Category, real>)
    ensures forall c: Category :: c in r && r[c] == 0.0
  {
    CategoriesAreTheSevenKeys();
    map c: Category | c in Categories :: 0.0
  }

  /** One pass of the loop body over `scores`. */
  function Tally(scores: map<Category, real>, a: Answer, decode: string -> Decoded): (r: map<Category, real>)
    ensures r.Keys == scores.Keys
  {
    match Accept(a, decode)
    case Some(v) => if v.category in scores then scores[v.category := scores[v.category] + v.delta] else scores
    case None => scores
  }

  /** A skipped answer leaves every accumulator as it was; a well-formed one
      adds its delta to its own category and leaves the other six alone. */
  lemma TallyTouchesOneCategory(scores: map<Category, real>, a: Answer, decode: string -> Decoded)
    requires forall c: Category :: c in scores
    ensures forall c: Category :: c in Tally(scores, a, decode) &&
              Tally(scores, a, decode)[c] == scores[c] + Contribution(a, decode, c)
    ensures Accept(a, decode).None? ==> Tally(scores, a, decode) == scores
    ensures Accept(a, decode).Some? ==>
              forall c: Category :: c != Accept(a, decode).value.category ==> Tally(scores, a, decode)[c] == scores[c]
  {
  }

  /** The accumulators after the loop has seen `answers`. */
  function Accumulate(answers: seq<Answer>, decode: string -> Decoded): (r: map<Category, real>)
    ensures forall c: Category :: c in r
  {
    if |answers| == 0 then Zeros()
    else Tally(Accumulate(answers[..|answers| - 1], decode), answers[|answers| - 1], decode)
  }

  lemma {:induction false} TotalAppend(xs: seq<Answer>, ys: seq<Answer>, decode: string -> Decoded, c: Category)
    ensures Total(xs + ys, decode, c) == Total(xs, decode, c) + Total(ys, decode, c)
  {
    if |xs| > 0 {
      assert (xs + ys)[1..] == xs[1..] + ys;
      TotalAppend(xs[1..], ys, decode, c);
    } else {
      assert xs + ys == ys;
    }
  }

  /** After the loop each accumulator is exactly the sum of the deltas of the
      well-formed answers that target it. */
  lemma {:induction false} AccumulateIsTotal(answers: seq<Answer>, decode: string -> Decoded)
    ensures forall c: Category :: c in Accumulate(answers, decode) &&
              Accumulate(answers, decode)[c] == Total(answers, decode, c)
  {
    if |answers| > 0 {
      var front := answers[..|answers| - 1];
      var last := answers[|answers| - 1];
      AccumulateIsTotal(front, decode);
      TallyTouchesOneCategory(Accumulate(front, decode), last, decode);
      forall c: Category ensures Total(answers, decode, c) == Total(front, decode, c) + Contribution(last, decode, c) {
        assert answers == front + [last];
        TotalAppend(front, [last], decode, c);
      }
    }
  }

  /** Taking one answer out of the list takes out exactly its contribution. */
  lemma TotalWithout(ys: seq<Answer>, j: nat, decode: string -> Decoded, c: Category)
    requires j < |ys|
    ensures Total(ys, decode, c) == Contribution(ys[j], decode, c) + Total(ys[..j] + ys[j + 1..], decode, c)
  {
    assert ys == ys[..j] + ([ys[j]] + ys[j + 1..]);
    TotalAppend(ys[..j], [ys[j]] + ys[j + 1..], decode, c);
    TotalAppend(ys[..j], ys[j + 1..], decode, c);
    assert ([ys[j]] + ys[j + 1..])[1..] == ys[j + 1..];
  }

  lemma MultisetWithout(xs: seq<Answer>, ys: seq<Answer>, j: nat)
    requires multiset(xs) == multiset(ys) && |xs| > 0 && j < |ys| && ys[j] == xs[0]
    ensures multiset(xs[1..]) == multiset(ys[..j] + ys[j + 1..])
  {
    assert ys == ys[..j] + [ys[j]] + ys[j + 1..];
    assert xs == [xs[0]] + xs[1..];
    assert multiset(ys) == multiset(ys[..j]) + multiset{ys[j]} + multiset(ys[j + 1..]);
    assert multiset(xs[1..]) == multiset(xs) - multiset{xs[0]};
  }

  /** The order of the answers does not matter. */
  lemma {:induction false} TotalPermutation(xs: seq<Answer>, ys: seq<Answer>, decode: string -> Decoded, c: Category)
    requires multiset(xs) == multiset(ys)
    ensures Total(xs, decode, c) == Total(ys, decode, c)
  {
    if |xs| > 0 {
      assert xs[0] in multiset(ys);
      var j :| 0 <= j < |ys| && ys[j] == xs[0];
      MultisetWithout(xs, ys, j);
      TotalPermutation(xs[1..], ys[..j] + ys[j + 1..], decode, c);
      TotalWithout(ys, j, decode, c);
    } else {
      assert ys == [];
    }
  }

  /** An answer list in which nothing is well-formed sums to zero everywhere. */
  lemma {:induction false} NothingAcceptedSumsToZero(answers: seq<Answer>, decode: string -> Decoded, c: Category)
    requires forall i :: 0 <= i < |answers| ==> Accept(answers[i], decode).None?
    ensures Total(answers, decode, c) == 0.0
    ensures Percent(Total(answers, decode, c), c) == 0
  {
    if |answers| > 0 {
      NothingAcceptedSumsToZero(answers[1..], decode, c);
    }
  }

  /** `Math.round(x)`: the nearest integer, halves rounded toward +infinity. */
  function Round(x: real): (r: int)
    ensures r as real - 0.5 <= x < r as real + 0.5
  {
    (x + 0.5).Floor
  }

  /** `Math.round(acc / baseScores[c] * 100)`: no clamping. */
  function Percent(acc: real, c: Category): (r: int)
    ensures (r as real - 0.5) * BaseScore(c) as real <= acc * 100.0 < (r as real + 0.5) * BaseScore(c) as real
  {
    var base := BaseScore(c) as real;
    var x := acc / base * 100.0;
    var r := Round(x);
    assert x * base == acc * 100.0;
    PositiveScaling(r as real - 0.5, x, base);
    PositiveScaling(x, r as real + 0.5, base);
    assert (r as real - 0.5) * base <= x * base;
    r
  }

  lemma PositiveScaling(a: real, b: real, k: real)
    requires k > 0.0
    ensures a <= b ==> a * k <= b * k
    ensures a < b ==> a * k < b * k
  {
  }

  /** The `POST /test` scoring: the validity check, the accumulation loop and
      the normalisation loop. */
  method ScoreSubmission(submission: Submission, decode: string -> Decoded) returns (r: Outcome)
    ensures r.InvalidSubmission? <==> submission.NotArray? || |submission.items| == 0
    ensures r.Failed? <==>
              submission.Answers? && |submission.items| > 0 && SomeConversionThrows(submission.items, decode)
    ensures r.Scored? ==> forall c: Category ::
              c in r.percentages && r.percentages[c] == Percent(Total(submission.items, decode, c), c)
  {
    if submission.NotArray? || |submission.items| == 0 {
      return InvalidSubmission;
    }
    var answers := submission.items;
    var scores := Zeros();
    var i := 0;
    while i < |answers|
      invariant 0 <= i <= |answers|
      invariant scores == Accumulate(answers[..i], decode)
      invariant !SomeConversionThrows(answers[..i], decode)
    {
      var answer := answers[i];
      assert answers[..i + 1][..i] == answers[..i];
      AccumulateIsTotal(answers[..i], decode);
      if answer.Encoded? {
        var parsed := decode(answer.e);
        if parsed.ConversionThrows? {
          assert answers[..i + 1][i] == answer;
          assert SomeConversionThrows(answers[..i + 1], decode);
          assert SomeConversionThrows(answers, decode) by {
            assert answers[i] == answer;
          }
          return Failed;
        }
        if parsed.Pair? {
          var target := CategoryNamed(parsed.target);
          if target.Some? && parsed.delta.Finite? {
            scores := scores[target.value := scores[target.value] + parsed.delta.value];
          }
        }
      }
      i := i + 1;
    }
    assert answers[..i] == answers;
    AccumulateIsTotal(answers, decode);
    assert !SomeConversionThrows(answers, decode);
    var percentages: map<Category, int> := map[];
    var k := 0;
    while k < |Categories|
      invariant 0 <= k <= |Categories|
      invariant forall c :: c in Categories[..k] ==> c in percentages && percentages[c] == Percent(scores[c], c)
    {
      var key := Categories[k];
      percentages := percentages[key := Percent(scores[key], key)];
      assert Categories[..k + 1] == Categories[..k] + [key];
      k := k + 1;
    }
    CategoriesAreTheSevenKeys();
    assert Categories[..k] == Categories;
    r := Scored(percentages);
  }

  /** Two answers giving "Data" 500 each and one that does not parse: "Data"
      scores round(1000 / 1000 * 100) = 100 and every other category 0. */
  lemma {:induction false} TwoHalfDataAnswers(e: string, garbage: string, decode: string -> Decoded)
    requires decode(e) == Pair("Data", Finite(500.0))
    requires decode(garbage) == Malformed
    ensures Percent(Total([Encoded(e), Encoded(e), Encoded(garbage)], decode, Data), Data) == 100
    ensures forall c: Category :: c != Data ==>
              Percent(Total([Encoded(e), Encoded(e), Encoded(garbage)], decode, c), c) == 0
  {
    var answers := [Encoded(e), Encoded(e), Encoded(garbage)];
    assert CategoryNamed("Data") == Some(Data);
    assert answers[1..][1..][1..] == [];
    assert Total(answers[1..][1..], decode, Data) == 0.0;
    assert Total(answers, decode, Data) == 1000.0;
    assert Round(100.0) == 100;
    forall c: Category | c != Data ensures Percent(Total(answers, decode, c), c) == 0 {
      assert Total(answers[1..][1..], decode, c) == 0.0;
      assert Total(answers, decode, c) == 0.0;
    }
  }

  /** Nothing clamps the percentages: a single answer can push a category
      below 0 or above 100. */
  lemma {:induction false} PercentagesAreNotClamped(up: string, down: string, decode: string -> Decoded)
    requires decode(up) == Pair("SoftwareDev", Finite(400.0))
    requires decode(down) == Pair("Analytical", Finite(-820.0))
    ensures Percent(Total([Encoded(up)], decode, SoftwareDev), SoftwareDev) == 200
    ensures Percent(Total([Encoded(down)], decode, Analytical), Analytical) == -100
  {
    assert CategoryNamed("SoftwareDev") == Some(SoftwareDev);
    assert CategoryNamed("Analytical") == Some(Analytical);
    assert [Encoded(up)][1..] == [] && [Encoded(down)][1..] == [];
    assert Round(200.0) == 200;
    assert Round(-100.0) == -100;
  }
}
