/** The detail page of one flag: the route's `id` parameter is parsed with parseInt, the
    flag with that id is looked up in the page's own table of sample flags, and the page
    shows either that flag or a not-found message. */
module FlagDetails {
  import opened Text
  import opened JsParseInt
  import FlagList

  datatype Option<T> = None | Some(value: T)

  /** `new Date(year, monthIndex, day)`: the month is counted from 0. */
  datatype Date = Date(year: int, monthIndex: int, day: int)

  /** A flag as the detail page knows it: the feed's fields plus a timestamp, a view count and
      the company's website. */
  datatype DetailFlag = DetailFlag(
    id: int,
    company: string,
    role: string,
    description: string,
    tags: seq<string>,
    date: string,
    timestamp: Date,
    views: nat,
    website: string)

  const SampleFlags: seq<DetailFlag> := [
    DetailFlag(1, "Felt", "Software Engineer",
      "Ghosted after submitting final round code. Interviewer said no one else solved their challenge.",
      ["Ghosting", "Unpaid Challenge"], "March 2024", Date(2024, 2, 15), 1284, "https://felt.com"),
    DetailFlag(2, "Acme Corp", "UX Designer",
      "Received unpaid take-home project. Spent 12 hours designing and coding a prototype. Never received feedback despite follow-up emails.",
      ["Unpaid Challenge", "Ghosting"], "February 2024", Date(2024, 1, 10), 723, "https://acme.com"),
    DetailFlag(3, "TechForward", "Product Manager",
      "Role was advertised as remote-friendly. After 4 interviews, was told it's actually required to be in-office 5 days a week in a different state.",
      ["Misleading Role"], "January 2024", Date(2024, 0, 5), 946, "https://techforward.io"),
    DetailFlag(4, "Growth Capital", "Financial Analyst",
      "Signed offer letter, gave notice at current job. Offer was rescinded 3 days before start date citing 'changing business needs'.",
      ["Offer Revoked"], "February 2024", Date(2024, 1, 25), 1576, "https://growthcapital.com")
  ]

  /** The page's own copy of the tag-to-class mapping. */
  function TagClassName(tag: string): (r: string)
    ensures FlagList.BaseClass <= r
  {
    var low := ToLower(tag);
    if low == "ghosting" then "flag-tag ghosting"
    else if low == "unpaid challenge" then "flag-tag unpaid"
    else if low == "misleading role" then "flag-tag misleading"
    else if low == "offer revoked" then "flag-tag revoked"
    else if low == "disrespectful behavior" then "flag-tag disrespectful"
    else "flag-tag"
  }

  /** The copy agrees with the feed list's mapping on every tag. */
  lemma TagClassNameAgrees(tag: string)
    ensures TagClassName(tag) == FlagList.TagClassName(tag)
  {
  }

  /** The two sample tables hold the same flags in the same order, apart from the fields
      only the detail page shows. */
  lemma SampleTablesAgree()
    ensures |SampleFlags| == |FlagList.SampleFlags|
    ensures forall i :: 0 <= i < |SampleFlags| ==>
      var d, f := SampleFlags[i], FlagList.SampleFlags[i];
      d.id == f.id && d.company == f.company && d.role == f.role
      && d.description == f.description && d.tags == f.tags && d.date == f.date
  {
  }

  predicate DistinctIds(flags: seq<DetailFlag>) {
    forall i, j :: 0 <= i < j < |flags| ==> flags[i].id != flags[j].id
  }

  /** `id || '0'`: a missing or empty route parameter stands for "0". */
  function RouteId(id: Option<string>): (s: string)
    ensures s != ""
    ensures id.Some? && id.value != "" ==> s == id.value
    ensures id.None? || id == Some("") ==> s == "0"
  {
    match id
    case Some(v) => if v != "" then v else "0"
    case None => "0"
  }

  /** `f.id === flagId`: strict equality of numbers, which NaN never satisfies. */
  predicate Matches(f: DetailFlag, flagId: Number) {
    flagId == Num(f.id)
  }

  /** `flags.find(f => f.id === flagId)`: the first flag whose id is `flagId`. */
  function FindFlag(flags: seq<DetailFlag>, flagId: Number): (r: Option<DetailFlag>)
    ensures r.Some? ==> Matches(r.value, flagId)
    ensures r.Some? ==> exists i :: 0 <= i < |flags| && flags[i] == r.value
                          && forall j :: 0 <= j < i ==> !Matches(flags[j], flagId)
    ensures r.None? <==> forall i :: 0 <= i < |flags| ==> !Matches(flags[i], flagId)
  {
    if |flags| == 0 then None
    else if Matches(flags[0], flagId) then Some(flags[0])
    else
      var r := FindFlag(flags[1..], flagId);
      assert r.Some? ==> exists i :: 1 <= i < |flags| && flags[i] == r.value
                          && forall j :: 0 <= j < i ==> !Matches(flags[j], flagId) by {
        if r.Some? {
          var k :| 0 <= k < |flags| - 1 && flags[1..][k] == r.value
                && forall j :: 0 <= j < k ==> !Matches(flags[1..][j], flagId);
          assert flags[k + 1] == r.value;
          forall j | 0 <= j < k + 1 ensures !Matches(flags[j], flagId) {
            if j > 0 { assert flags[j] == flags[1..][j - 1]; }
          }
        }
      }
      assert r.None? <==> forall i :: 0 <= i < |flags| ==> !Matches(flags[i], flagId) by {
        assert forall i :: 1 <= i < |flags| ==> flags[i] == flags[1..][i - 1];
      }
      r
  }

  /** What the page renders. */
  datatype Page = NotFound | Found(flag: DetailFlag)

  /** The page for an already parsed id. */
  function PageFor(flagId: Number): (p: Page)
    ensures p.Found? ==> flagId == Num(p.flag.id) && p.flag in SampleFlags
  {
    match FindFlag(SampleFlags, flagId)
    case Some(f) => Found(f)
    case None => NotFound
  }

  /** The page for the route parameter `id`. */
  function FlagPage(id: Option<string>): (p: Page)
    ensures p.Found? ==> ParseInt(RouteId(id)) == Num(p.flag.id) && p.flag in SampleFlags
  {
    PageFor(ParseInt(RouteId(id)))
  }

  /** The flags of the table have the ids 1 to 4, in row order. */
  lemma SampleIdsInOrder()
    ensures |SampleFlags| == 4
    ensures forall i :: 0 <= i < 4 ==> SampleFlags[i].id == i + 1
  {
  }

  /** An id 1 to 4 finds the flag in that row of the table; any other number, or NaN,
      finds nothing. */
  lemma PageForIff(flagId: Number)
    ensures PageFor(flagId).Found? <==> flagId.Num? && 1 <= flagId.value <= 4
    ensures PageFor(flagId).Found? ==> PageFor(flagId).flag == SampleFlags[flagId.value - 1]
  {
    SampleIdsInOrder();
    if flagId.Num? && 1 <= flagId.value <= 4 {
      assert Matches(SampleFlags[flagId.value - 1], flagId);
    }
    if PageFor(flagId).Found? {
      var f := PageFor(flagId).flag;
      var i :| 0 <= i < |SampleFlags| && SampleFlags[i] == f;
      assert f.id == i + 1;
    }
  }

  /** The page shows a flag exactly when the parsed id is one of 1 to 4. */
  lemma FoundIffKnownId(id: Option<string>)
    ensures FlagPage(id).Found? <==> ParseInt(RouteId(id)).Num? && 1 <= ParseInt(RouteId(id)).value <= 4
  {
    PageForIff(ParseInt(RouteId(id)));
  }

  /** A missing (or empty) route id is read as "0", and no flag has id 0. */
  lemma MissingIdNotFound(id: Option<string>)
    requires id == None || id == Some("")
    ensures FlagPage(id) == NotFound
  {
    assert RouteId(id) == "0";
    ParseZero();
    PageForIff(Num(0));
  }

  /** An id that parses to NaN matches no flag. */
  lemma NaNNotFound(id: Option<string>)
    requires ParseInt(RouteId(id)) == NaN
    ensures FlagPage(id) == NotFound
  {
  }

  /** An id that does not start with white space, a sign or a digit is not found. */
  lemma NonNumericIdNotFound(s: string)
    requires s != [] && !IsWhitespace(s[0]) && s[0] != '+' && s[0] != '-' && DigitValue(s[0]) >= 10
    ensures FlagPage(Some(s)) == NotFound
  {
    NoLeadingDigitIsNaN(s);
  }

  /** The page depends on the route id only through its parsed value. */
  lemma PageOfParsed(id: Option<string>, n: Number)
    requires ParseInt(RouteId(id)) == n
    ensures FlagPage(id) == PageFor(n)
  {
  }

  /** Each id 1 to 4, written in decimal, finds the flag in that row of the table. */
  lemma KnownIdFound(k: nat)
    requires 1 <= k <= 4
    ensures FlagPage(Some(DecimalString(k))) == Found(SampleFlags[k - 1])
  {
    var s := DecimalString(k);
    ParseDecimal(k);
    assert RouteId(Some(s)) == s;
    PageOfParsed(Some(s), Num(k));
    PageForIff(Num(k));
  }

  /** Distinct ids make the lookup's answer the only flag with that id. */
  lemma FoundIsOnlyMatch(flags: seq<DetailFlag>, flagId: Number, i: nat)
    requires DistinctIds(flags)
    requires FindFlag(flags, flagId).Some?
    requires i < |flags| && Matches(flags[i], flagId)
    ensures flags[i] == FindFlag(flags, flagId).value
  {
    var f := FindFlag(flags, flagId).value;
    var k :| 0 <= k < |flags| && flags[k] == f && forall j :: 0 <= j < k ==> !Matches(flags[j], flagId);
    assert flags[i].id == flags[k].id;
  }

  lemma SampleIdsDistinct()
    ensures DistinctIds(SampleFlags)
  {
  }
}
