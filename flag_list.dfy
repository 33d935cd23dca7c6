/** The feed list: the fixed table of sample flags, the mapping from a violation tag to
    the CSS class of its badge, and the rows the list renders, in table order. */
module FlagList {
  import opened Text

  /** One entry of the feed. */
  datatype Flag = Flag(
    id: int,
    company: string,
    role: string,
    description: string,
    tags: seq<string>,
    date: string)

  const SampleFlags: seq<Flag> := [
    Flag(1, "Felt", "Software Engineer",
      "Ghosted after submitting final round code. Interviewer said no one else solved their challenge.",
      ["Ghosting", "Unpaid Challenge"], "March 2024"),
    Flag(2, "Acme Corp", "UX Designer",
      "Received unpaid take-home project. Spent 12 hours designing and coding a prototype. Never received feedback despite follow-up emails.",
      ["Unpaid Challenge", "Ghosting"], "February 2024"),
    Flag(3, "TechForward", "Product Manager",
      "Role was advertised as remote-friendly. After 4 interviews, was told it's actually required to be in-office 5 days a week in a different state.",
      ["Misleading Role"], "January 2024"),
    Flag(4, "Growth Capital", "Financial Analyst",
      "Signed offer letter, gave notice at current job. Offer was rescinded 3 days before start date citing 'changing business needs'.",
      ["Offer Revoked"], "February 2024")
  ]

  const BaseClass: string := "flag-tag"

  /** The class of a tag's badge: `flag-tag`, followed for the five known violations by a
      specific modifier. The comparison is made on the lower-cased tag. */
  function TagClassName(tag: string): (r: string)
    ensures BaseClass <= r
  {
    ClassOfLowered(ToLower(tag))
  }

  /** The comparisons of `getTagClassName`, on the already lower-cased tag. */
  function ClassOfLowered(low: string): (r: string)
    ensures BaseClass <= r
  {
    if low == "ghosting" then "flag-tag ghosting"
    else if low == "unpaid challenge" then "flag-tag unpaid"
    else if low == "misleading role" then "flag-tag misleading"
    else if low == "offer revoked" then "flag-tag revoked"
    else if low == "disrespectful behavior" then "flag-tag disrespectful"
    else "flag-tag"
  }

  /** A reference description of the mapping: the five violation labels as the submission
      form shows them, each with the modifier its badge carries. */
  datatype TagStyle = TagStyle(name: string, modifier: string)

  const KnownTags: seq<TagStyle> := [
    TagStyle("Ghosting", "ghosting"),
    TagStyle("Unpaid Challenge", "unpaid"),
    TagStyle("Misleading Role", "misleading"),
    TagStyle("Offer Revoked", "revoked"),
    TagStyle("Disrespectful Behavior", "disrespectful")
  ]

  /** The tag is one of the known labels written in some letter case. */
  predicate IsKnownTag(tag: string) {
    exists i :: 0 <= i < |KnownTags| && ToLower(tag) == ToLower(KnownTags[i].name)
  }

  /** Lower-cases one literal label, character by character. */
  lemma LowersTo(s: string, t: string)
    requires |s| == |t|
    requires forall i :: 0 <= i < |s| ==> LowerChar(s[i]) == t[i]
    ensures ToLower(s) == t
  {
  }

  lemma GhostingLowered()
    ensures ToLower(KnownTags[0].name) == "ghosting"
  {
    assert LowerChar('G') == 'g';
    LowersTo("Ghosting", "ghosting");
  }

  lemma UnpaidLowered()
    ensures ToLower(KnownTags[1].name) == "unpaid challenge"
  {
    assert LowerChar('U') == 'u' && LowerChar('C') == 'c';
    LowersTo("Unpaid Challenge", "unpaid challenge");
  }

  lemma MisleadingLowered()
    ensures ToLower(KnownTags[2].name) == "misleading role"
  {
    assert LowerChar('M') == 'm' && LowerChar('R') == 'r';
    LowersTo("Misleading Role", "misleading role");
  }

  lemma RevokedLowered()
    ensures ToLower(KnownTags[3].name) == "offer revoked"
  {
    assert LowerChar('O') == 'o' && LowerChar('R') == 'r';
    LowersTo("Offer Revoked", "offer revoked");
  }

  lemma DisrespectfulLowered()
    ensures ToLower(KnownTags[4].name) == "disrespectful behavior"
  {
    assert LowerChar('D') == 'd' && LowerChar('B') == 'b';
    LowersTo("Disrespectful Behavior", "disrespectful behavior");
  }

  /** The class the comparisons give to the lower-cased known label `i`. */
  lemma ClassOfKnownLabel(low: string, i: nat)
    requires i < |KnownTags|
    requires low == ToLower(KnownTags[i].name)
    ensures ClassOfLowered(low) == BaseClass + " " + KnownTags[i].modifier
  {
    if i == 0 { GhostingLowered(); }
    else if i == 1 { UnpaidLowered(); }
    else if i == 2 { MisleadingLowered(); }
    else if i == 3 { RevokedLowered(); }
    else { DisrespectfulLowered(); }
  }

  /** A known label, in any letter case, gets `flag-tag` and its own modifier. */
  lemma KnownTagClass(tag: string, i: nat)
    requires i < |KnownTags|
    requires ToLower(tag) == ToLower(KnownTags[i].name)
    ensures TagClassName(tag) == BaseClass + " " + KnownTags[i].modifier
  {
    ClassOfKnownLabel(ToLower(tag), i);
  }

  /** A tag that gets a modifier is one of the known labels. */
  lemma ModifiedTagIsKnown(tag: string)
    requires TagClassName(tag) != BaseClass
    ensures IsKnownTag(tag)
  {
    GhostingLowered(); UnpaidLowered(); MisleadingLowered(); RevokedLowered(); DisrespectfulLowered();
    var low := ToLower(tag);
    var i := if low == "ghosting" then 0 else if low == "unpaid challenge" then 1
             else if low == "misleading role" then 2 else if low == "offer revoked" then 3 else 4;
    assert low == ToLower(KnownTags[i].name);
  }

  /** Any other tag, "Other" included, gets the plain class. */
  lemma UnknownTagClass(tag: string)
    requires !IsKnownTag(tag)
    ensures TagClassName(tag) == BaseClass
  {
    if TagClassName(tag) != BaseClass {
      ModifiedTagIsKnown(tag);
      assert false;
    }
  }

  /** The plain class is given exactly to the tags that are not known labels. */
  lemma PlainClassIffUnknown(tag: string)
    ensures TagClassName(tag) == BaseClass <==> !IsKnownTag(tag)
  {
    if IsKnownTag(tag) {
      var i :| 0 <= i < |KnownTags| && ToLower(tag) == ToLower(KnownTags[i].name);
      KnownTagClass(tag, i);
    } else {
      UnknownTagClass(tag);
    }
  }

  lemma OtherIsPlain()
    ensures TagClassName("Other") == BaseClass
  {
    assert ToLower("Other") == "other";
  }

  /** The five known labels get five different classes. */
  lemma KnownClassesDistinct(i: nat, j: nat)
    requires i < |KnownTags| && j < |KnownTags| && i != j
    ensures TagClassName(KnownTags[i].name) != TagClassName(KnownTags[j].name)
  {
    KnownTagClass(KnownTags[i].name, i);
    KnownTagClass(KnownTags[j].name, j);
    var a, b := BaseClass + " " + KnownTags[i].modifier, BaseClass + " " + KnownTags[j].modifier;
    assert a[9..] == KnownTags[i].modifier && b[9..] == KnownTags[j].modifier;
  }

  /** The class does not depend on letter case. */
  lemma TagClassIgnoresCase(tag: string)
    ensures TagClassName(tag) == TagClassName(ToLower(tag))
  {
    ToLowerIdempotent(tag);
  }

  /** One badge of a rendered row: the tag's text and its class. */
  datatype Badge = Badge(text: string, className: string)

  /** One rendered row of the list, keyed by the flag's id. */
  datatype FlagRow = FlagRow(
    key: int,
    company: string,
    role: string,
    date: string,
    description: string,
    badges: seq<Badge>)

  function Badges(tags: seq<string>): (r: seq<Badge>)
    ensures |r| == |tags|
    ensures forall j :: 0 <= j < |tags| ==> r[j].text == tags[j] && r[j].className == TagClassName(tags[j])
    ensures forall j :: 0 <= j < |tags| ==> BaseClass <= r[j].className
  {
    seq(|tags|, j requires 0 <= j < |tags| => Badge(tags[j], TagClassName(tags[j])))
  }

  /** `key={flag.id}`, the company, the role, the date, the description and one badge per tag. */
  function RenderRow(flag: Flag): (r: FlagRow)
    ensures r.key == flag.id
    ensures r.company == flag.company && r.role == flag.role && r.date == flag.date
    ensures r.description == flag.description
    ensures |r.badges| == |flag.tags|
    ensures forall j :: 0 <= j < |flag.tags| ==>
      r.badges[j].text == flag.tags[j] && r.badges[j].className == TagClassName(flag.tags[j])
  {
    FlagRow(flag.id, flag.company, flag.role, flag.date, flag.description, Badges(flag.tags))
  }

  /** The list renders one row per flag, in the order of the table. */
  function Render(flags: seq<Flag>): (r: seq<FlagRow>)
    ensures |r| == |flags|
    ensures forall i :: 0 <= i < |flags| ==> r[i].key == flags[i].id && r[i].company == flags[i].company
    ensures forall i :: 0 <= i < |flags| ==> r[i].badges == Badges(flags[i].tags)
  {
    seq(|flags|, i requires 0 <= i < |flags| => RenderRow(flags[i]))
  }

  function Ids(flags: seq<Flag>): (r: seq<int>)
    ensures |r| == |flags|
    ensures forall i :: 0 <= i < |flags| ==> r[i] == flags[i].id
  {
    seq(|flags|, i requires 0 <= i < |flags| => flags[i].id)
  }

  predicate DistinctIds(flags: seq<Flag>) {
    forall i, j :: 0 <= i < j < |flags| ==> flags[i].id != flags[j].id
  }

  /** The sample ids are 1 to 4, pairwise distinct, so they serve as React keys. */
  lemma SampleIds()
    ensures Ids(SampleFlags) == [1, 2, 3, 4]
    ensures DistinctIds(SampleFlags)
  {
  }

  /** The rendered keys appear in table order: 1, 2, 3, 4. */
  lemma SampleRenderOrder()
    ensures |Render(SampleFlags)| == 4
    ensures forall i :: 0 <= i < 4 ==> Render(SampleFlags)[i].key == i + 1
  {
  }

  /** Every tag used in the sample data is a known label, so every badge carries a modifier. */
  lemma SampleTagsStyled(i: nat, j: nat)
    requires i < |SampleFlags| && j < |SampleFlags[i].tags|
    ensures TagClassName(SampleFlags[i].tags[j]) != BaseClass
  {
    var tag := SampleFlags[i].tags[j];
    var k := if tag == "Ghosting" then 0 else if tag == "Unpaid Challenge" then 1
             else if tag == "Misleading Role" then 2 else 3;
    assert tag == KnownTags[k].name;
    PlainClassIffUnknown(tag);
  }

  /** The rendered list shows every sample badge with a modifier. */
  lemma SampleBadgesStyled(i: nat, j: nat)
    requires i < |SampleFlags| && j < |SampleFlags[i].tags|
    ensures j < |Render(SampleFlags)[i].badges|
    ensures Render(SampleFlags)[i].badges[j].text == SampleFlags[i].tags[j]
    ensures Render(SampleFlags)[i].badges[j].className != BaseClass
  {
    SampleTagsStyled(i, j);
  }
}
