/**
 * Lookups over the parsed subfield data file (files_work.js): `getFieldInfo`
 * and `getDescriptions`. The file is read and parsed by the caller; both
 * operations take the parsed array of records as a parameter.
 */
module FieldLookup {
  import opened Wrappers

  /** One element of the subfield data array. A member the code tests for
      truthiness or for being an array is optional. */
  datatype SubfieldRecord = SubfieldRecord(
    title: string,
    introduction: Option<string>,
    shortIntroduction: Option<string>,
    subfields: Option<seq<string>>,  // None when the member is not an array
    way2place: Option<seq<string>>)  // None when the member is not an array

  /** One entry of the `subfields` list shown on a major's page. */
  datatype SubfieldSummary = SubfieldSummary(title: string, shortIntroduction: string)

  datatype FieldView = FieldView(
    title: string,
    introduction: string,
    topSubfield: Option<string>,     // None stands for `null`
    subfields: seq<SubfieldSummary>)

  /** What `getFieldInfo` returns: the view, or `{success: false, message}`
      whose message names the requested title. */
  datatype FieldInfo = Found(view: FieldView) | NotFound(title: string)

  /** One element of what `getDescriptions` returns; the description is the
      record's `introduction` member as it is, possibly absent. */
  datatype Description = Description(title: string, description: Option<string>)

  const NoInformation: string := "(No information found)"

  /** `s || ""`: an absent member and the empty string both give "". */
  function OrEmpty(s: Option<string>): (r: string)
  {
    if s.Some? then s.value else ""
  }

  /** `i` is the position `Array.prototype.find` stops at when it looks for `title`. */
  ghost predicate IsFirstMatch(data: seq<SubfieldRecord>, title: string, i: int)
  {
    0 <= i < |data| && data[i].title == title &&
    forall j :: 0 <= j < i ==> data[j].title != title
  }

  ghost predicate HasRecord(data: seq<SubfieldRecord>, title: string)
  {
    exists i :: 0 <= i < |data| && data[i].title == title
  }

  /** `data.find((item) => item.title === title)`, as the index of the record found. */
  function FindByTitle(data: seq<SubfieldRecord>, title: string): (r: Option<nat>)
    ensures r.Some? ==> IsFirstMatch(data, title, r.value)
    ensures r.None? <==> !HasRecord(data, title)
  {
    if |data| == 0 then None
    else if data[0].title == title then Some(0)
    else match FindByTitle(data[1..], title)
      case None => None
      case Some(i) => Some(i + 1)
  }

  /** The `topSubfield` of a page: the parent step of the record's path, or
      the only step when the path has one. */
  function TopSubfield(way2place: Option<seq<string>>): (r: Option<string>)
    ensures r.None? <==> way2place.None? || |way2place.value| == 0
    ensures r.Some? ==> r.value in way2place.value
    ensures way2place.Some? && |way2place.value| == 1 ==> r == Some(way2place.value[0])
    ensures way2place.Some? && |way2place.value| >= 2 ==>
              r == Some(way2place.value[|way2place.value| - 2])
  {
    match way2place
    case None => None
    case Some(path) =>
      if |path| == 0 then None
      else if |path| >= 2 then Some(path[|path| - 2])
      else Some(path[0])
  }

  /** The subfield titles a record lists; a non-array member lists none. */
  function SubfieldTitles(item: SubfieldRecord): (r: seq<string>)
  {
    if item.subfields.Some? then item.subfields.value else []
  }

  /** What one listed subfield title becomes on the page. */
  function ResolveSubfield(data: seq<SubfieldRecord>, subTitle: string): (r: SubfieldSummary)
    ensures r.title == subTitle
    ensures !HasRecord(data, subTitle) ==> r.shortIntroduction == NoInformation
    ensures forall i :: IsFirstMatch(data, subTitle, i) ==>
              r.shortIntroduction == OrEmpty(data[i].shortIntroduction)
  {
    match FindByTitle(data, subTitle)
    case Some(i) => SubfieldSummary(data[i].title, OrEmpty(data[i].shortIntroduction))
    case None => SubfieldSummary(subTitle, NoInformation)
  }

  /** `getFieldInfo(mainTitle)` over the parsed data. */
  method GetFieldInfo(data: seq<SubfieldRecord>, mainTitle: string) returns (r: FieldInfo)
    ensures r.NotFound? <==> !HasRecord(data, mainTitle)
    ensures r.NotFound? ==> r.title == mainTitle
    ensures r.Found? ==> r.view.title == mainTitle
    ensures forall i :: IsFirstMatch(data, mainTitle, i) ==>
              && r.Found?
              && r.view.introduction == OrEmpty(data[i].introduction)
              && r.view.topSubfield == TopSubfield(data[i].way2place)
              && |r.view.subfields| == |SubfieldTitles(data[i])|
              && forall k :: 0 <= k < |r.view.subfields| ==>
                   r.view.subfields[k] == ResolveSubfield(data, SubfieldTitles(data[i])[k])
  {
    var found := FindByTitle(data, mainTitle);
    if found.None? {
      return NotFound(mainTitle);
    }
    var item := data[found.value];
    var topSubfield := TopSubfield(item.way2place);
    var subfieldsResult: seq<SubfieldSummary> := [];
    if item.subfields.Some? {
      var subTitles := item.subfields.value;
      var k := 0;
      while k < |subTitles|
        invariant 0 <= k <= |subTitles|
        invariant |subfieldsResult| == k
        invariant forall m :: 0 <= m < k ==> subfieldsResult[m] == ResolveSubfield(data, subTitles[m])
      {
        var sub := FindByTitle(data, subTitles[k]);
        if sub.Some? {
          var subItem := data[sub.value];
          subfieldsResult := subfieldsResult + [SubfieldSummary(subItem.title, OrEmpty(subItem.shortIntroduction))];
        } else {
          subfieldsResult := subfieldsResult + [SubfieldSummary(subTitles[k], NoInformation)];
        }
        k := k + 1;
      }
    }
    r := Found(FieldView(item.title, OrEmpty(item.introduction), topSubfield, subfieldsResult));
  }

  /** The titles of `titles` that some record carries, in input order. */
  function FoundTitles(titles: seq<string>, data: seq<SubfieldRecord>): (r: seq<string>)
  {
    if |titles| == 0 then []
    else
      var last := titles[|titles| - 1];
      FoundTitles(titles[..|titles| - 1], data) +
        (if FindByTitle(data, last).Some? then [last] else [])
  }

  /** What `getDescriptions(titles)` returns for the parsed data. */
  function Descriptions(titles: seq<string>, data: seq<SubfieldRecord>): (r: seq<Description>)
  {
    if |titles| == 0 then []
    else
      Descriptions(titles[..|titles| - 1], data) +
        match FindByTitle(data, titles[|titles| - 1])
        case Some(i) => [Description(data[i].title, data[i].introduction)]
        case None => []
  }

  function TitlesOf(ds: seq<Description>): (r: seq<string>)
  {
    seq(|ds|, k requires 0 <= k < |ds| => ds[k].title)
  }

  /** `getDescriptions(titles)`: for each title, the first record carrying it,
      or nothing. */
  method GetDescriptions(titles: seq<string>, data: seq<SubfieldRecord>) returns (descriptions: seq<Description>)
    ensures descriptions == Descriptions(titles, data)
  {
    descriptions := [];
    var i := 0;
    while i < |titles|
      invariant 0 <= i <= |titles|
      invariant descriptions == Descriptions(titles[..i], data)
    {
      var title := titles[i];
      var j := 0;
      var matched := false;
      while j < |data|
        invariant 0 <= j <= |data|
        invariant forall m :: 0 <= m < j ==> data[m].title != title
        invariant !matched && descriptions == Descriptions(titles[..i], data)
      {
        if data[j].title == title {
          descriptions := descriptions + [Description(data[j].title, data[j].introduction)];
          matched := true;
          break;
        }
        j := j + 1;
      }
      assert titles[..i + 1][..i] == titles[..i];
      ghost var hit := FindByTitle(data, title);
      if matched {
        assert IsFirstMatch(data, title, j);
        FirstMatchUnique(data, title, hit.value, j);
      }
      i := i + 1;
    }
    assert titles[..|titles|] == titles;
  }

  lemma FirstMatchUnique(data: seq<SubfieldRecord>, title: string, i: int, j: int)
    requires IsFirstMatch(data, title, i) && IsFirstMatch(data, title, j)
    ensures i == j
  {
  }

  /** Every description kept names a title that was asked for, carries the
      introduction of the first record with that title, and none is made up. */
  lemma {:induction false} DescriptionsMatchTitles(titles: seq<string>, data: seq<SubfieldRecord>)
    ensures TitlesOf(Descriptions(titles, data)) == FoundTitles(titles, data)
    ensures |Descriptions(titles, data)| <= |titles|
    ensures forall k, i :: 0 <= k < |Descriptions(titles, data)| && IsFirstMatch(data, Descriptions(titles, data)[k].title, i) ==>
              Descriptions(titles, data)[k].description == data[i].introduction
    ensures forall k :: 0 <= k < |Descriptions(titles, data)| ==> HasRecord(data, Descriptions(titles, data)[k].title)
  {
    if |titles| > 0 {
      var front := titles[..|titles| - 1];
      DescriptionsMatchTitles(front, data);
      match FindByTitle(data, titles[|titles| - 1])
      case Some(i) =>
        forall i' | IsFirstMatch(data, data[i].title, i') ensures i' == i {
          FirstMatchUnique(data, data[i].title, i, i');
        }
      case None =>
    }
  }

  /** `a` can be obtained from `b` by deleting elements. */
  ghost predicate IsSubsequence(a: seq<string>, b: seq<string>)
    decreases |b|
  {
    |a| == 0 ||
    (|b| > 0 &&
      if a[|a| - 1] == b[|b| - 1] then IsSubsequence(a[..|a| - 1], b[..|b| - 1])
      else IsSubsequence(a, b[..|b| - 1]))
  }

  lemma {:induction false} FoundTitlesAreFound(titles: seq<string>, data: seq<SubfieldRecord>)
    ensures forall k :: 0 <= k < |FoundTitles(titles, data)| ==>
              FoundTitles(titles, data)[k] in titles && HasRecord(data, FoundTitles(titles, data)[k])
    ensures forall t :: t in titles && HasRecord(data, t) ==> t in FoundTitles(titles, data)
  {
    if |titles| > 0 {
      FoundTitlesAreFound(titles[..|titles| - 1], data);
      assert titles == titles[..|titles| - 1] + [titles[|titles| - 1]];
    }
  }

  /** The titles `getDescriptions` keeps are a subsequence of the input: in
      input order, only those some record carries, and every one of those. */
  lemma {:induction false} FoundTitlesSubsequence(titles: seq<string>, data: seq<SubfieldRecord>)
    ensures IsSubsequence(FoundTitles(titles, data), titles)
    ensures forall t :: t in FoundTitles(titles, data) <==> t in titles && HasRecord(data, t)
  {
    FoundTitlesAreFound(titles, data);
    if |titles| > 0 {
      var front := titles[..|titles| - 1];
      var last := titles[|titles| - 1];
      FoundTitlesSubsequence(front, data);
      var f := FoundTitles(front, data);
      if FindByTitle(data, last).Some? {
        assert FoundTitles(titles, data) == f + [last];
        assert (f + [last])[..|f|] == f;
      } else {
        assert FoundTitles(titles, data) == f;
        FoundTitlesAreFound(front, data);
        if |f| > 0 {
          assert HasRecord(data, f[|f| - 1]);
        }
      }
    }
  }
}
