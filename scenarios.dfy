/** Two small forms that hold the same elements with their siblings in
    the opposite order, and what each of the three tests makes of them. */
module Scenarios {
  import opened Wrappers
  import opened Tree
  import opened Parser
  import opened Location
  import opened Attributes
  import opened Differences
  import opened CompareXml

  const A := Node(1, "a", None, [("x", "1")], [])
  const B := Node(2, "b", None, [("y", "2")], [])

  /** <form><a x="1"/><b y="2"/></form> */
  const ProdForm := Node(0, "form", None, [], [A, B])
  /** <form><b y="2"/><a x="1"/></form> */
  const TestForm := Node(0, "form", None, [], [B, A])

  lemma Flattenings()
    ensures GetChildren(ProdForm) == [ProdForm, A, B]
    ensures GetChildren(TestForm) == [TestForm, B, A]
  {
    assert GetChildren(A) == [A] && GetChildren(B) == [B];
    assert ForestChildren([B]) == [B];
    assert ForestChildren([A]) == [A];
  }

  /** Same tags and same texts: the tag and text tests log nothing. */
  lemma SwappedSiblingsTagsAndTexts()
    ensures TagRun(ProdForm, TestForm) == Run([], None, false)
    ensures TextRun(ProdForm, TestForm) == Run([], None, false)
  {
    Flattenings();
    SwappedTags();
    RunsOfSameForm(ProdForm);
    assert Texts(GetChildren(ProdForm)) == Texts(GetChildren(TestForm));
    assert TextRun(ProdForm, TestForm) == TextRun(ProdForm, ProdForm);
  }

  lemma SwappedTags()
    requires GetChildren(ProdForm) == [ProdForm, A, B] && GetChildren(TestForm) == [TestForm, B, A]
    ensures TagRun(ProdForm, TestForm) == Run([], None, false)
  {
    var tp, tt := Tags(GetChildren(ProdForm)), Tags(GetChildren(TestForm));
    assert tp == ["form", "a", "b"] && tt == ["form", "b", "a"];
    var d := RetrieveDifferences(tp, tt);
    assert Elements(tp) == {"form", "a", "b"} == Elements(tt);
    ElementsEmpty(d[0]);
    ElementsEmpty(d[1]);
    assert TagSubjects([]) == [];
    assert Steps(ProdForm, [], ProdToTest) == [] && Steps(TestForm, [], TestToProd) == [];
  }

  const GroupA: Group := ("a", [[("x", "1")]])
  const GroupB: Group := ("b", [[("y", "2")]])

  lemma SwappedGroups()
    ensures Groups(GetChildren(ProdForm)) == [GroupA, GroupB]
    ensures Groups(GetChildren(TestForm)) == [GroupB, GroupA]
  {
    Flattenings();
    var fp, ft := [ProdForm, A, B], [TestForm, B, A];
    assert fp[..2] == [ProdForm, A] && fp[..2][..1] == [ProdForm];
    assert ft[..2] == [TestForm, B] && ft[..2][..1] == [TestForm];
    assert [ProdForm][..0] == [] && [TestForm][..0] == [];
    assert ProdForm.attrib == [] && TestForm.attrib == [];
    assert Groups([ProdForm]) == [];
    assert Groups([TestForm]) == [];
    assert KeyIndex([], "a") == None && KeyIndex([], "b") == None;
    assert Append([], "a", A.attrib) == [GroupA] && Append([], "b", B.attrib) == [GroupB];
    assert Groups(fp[..2]) == [GroupA] && Groups(ft[..2]) == [GroupB];
    assert KeyIndex([GroupA], "b") == None && KeyIndex([GroupB], "a") == None;
  }

  lemma SwappedRenders()
    ensures Render(["form", "b"]) == "<form>, <b>" && Render(["form", "a"]) == "<form>, <a>"
    ensures Render(["form", "b", "a"]) == "<form>, <b>, <a>" && Render(["form", "a", "b"]) == "<form>, <a>, <b>"
  {
    RenderTwo("form", "b");
    RenderTwo("form", "a");
    RenderThree("form", "b", "a");
    RenderThree("form", "a", "b");
  }

  lemma RenderOne(x: string)
    ensures Render([x]) == Wrap(x)
  {
    assert Wrapped([x]) == [Wrap(x)];
  }

  lemma RenderTwo(x: string, y: string)
    ensures Render([x, y]) == Wrap(x) + ", " + Wrap(y)
  {
    RenderCons([x, y]);
    assert [x, y][1..] == [y];
    RenderOne(y);
  }

  lemma RenderThree(x: string, y: string, z: string)
    ensures Render([x, y, z]) == Wrap(x) + ", " + Wrap(y) + ", " + Wrap(z)
  {
    RenderCons([x, y, z]);
    assert [x, y, z][1..] == [y, z];
    RenderTwo(y, z);
  }

  lemma SwappedSearches()
    ensures FindTagByAttrib(TestForm, "b", "y", "2") == Some(B) && FindTagByAttrib(TestForm, "a", "x", "1") == Some(A)
    ensures FindTagByAttrib(ProdForm, "a", "x", "1") == Some(A) && FindTagByAttrib(ProdForm, "b", "y", "2") == Some(B)
  {
    Flattenings();
    AttributeValues();
    FindDescendantAt(TestForm, ByAttrib("b", "y", "2"), 1);
    FindDescendantAt(TestForm, ByAttrib("a", "x", "1"), 2);
    FindDescendantAt(ProdForm, ByAttrib("a", "x", "1"), 1);
    FindDescendantAt(ProdForm, ByAttrib("b", "y", "2"), 2);
  }

  lemma AttributeValues()
    ensures Get(A.attrib, "x") == Some("1") && Get(B.attrib, "y") == Some("2")
  {
    assert A.attrib[..0] == [] && B.attrib[..0] == [];
  }

  /** The location of each element is the document-order prefix up to it. */
  lemma SwappedLocalized()
    ensures LocalizeDifference(TestForm, Some(B)) == Ok("<form>, <b>")
    ensures LocalizeDifference(ProdForm, Some(A)) == Ok("<form>, <a>")
    ensures LocalizeDifference(TestForm, Some(A)) == Ok("<form>, <b>, <a>")
    ensures LocalizeDifference(ProdForm, Some(B)) == Ok("<form>, <a>, <b>")
  {
    Flattenings();
    SwappedRenders();
    LocalizedTest();
    LocalizedProd();
  }

  lemma LocalizedTest()
    requires GetChildren(TestForm) == [TestForm, B, A]
    ensures LocalizeDifference(TestForm, Some(B)) == Ok(Render(["form", "b"]))
    ensures LocalizeDifference(TestForm, Some(A)) == Ok(Render(["form", "b", "a"]))
  {
    var ft := [TestForm, B, A];
    assert UniqueIds(TestForm);
    assert ft[..2] == [TestForm, B] && ft[..3] == ft;
    LocalizedPrefix(TestForm, 1, ["form", "b"]);
    LocalizedPrefix(TestForm, 2, ["form", "b", "a"]);
  }

  lemma LocalizedProd()
    requires GetChildren(ProdForm) == [ProdForm, A, B]
    ensures LocalizeDifference(ProdForm, Some(A)) == Ok(Render(["form", "a"]))
    ensures LocalizeDifference(ProdForm, Some(B)) == Ok(Render(["form", "a", "b"]))
  {
    var fp := [ProdForm, A, B];
    assert UniqueIds(ProdForm);
    assert fp[..2] == [ProdForm, A] && fp[..3] == fp;
    LocalizedPrefix(ProdForm, 1, ["form", "a"]);
    LocalizedPrefix(ProdForm, 2, ["form", "a", "b"]);
  }

  lemma LocalizedPrefix(form: Node, k: nat, tags: seq<string>)
    requires UniqueIds(form) && k < |GetChildren(form)|
    requires Tags(GetChildren(form)[..k + 1]) == tags
    ensures LocalizeDifference(form, Some(GetChildren(form)[k])) == Ok(Render(tags))
  {
    LocalizeAt(form, k);
  }

  /** Each group is found at its own element: the first pass's groups... */
  lemma FirstPassLocations()
    ensures Locate(TestForm, AttribDiff(GroupB), TestToProd) == Ok(Record(TestToProd, B, "<form>, <b>"))
    ensures Locate(ProdForm, AttribDiff(GroupA), ProdToTest) == Ok(Record(ProdToTest, A, "<form>, <a>"))
  {
    SwappedSearches();
    SwappedLocalized();
    FindAttrib(TestForm, GroupB);
    FindAttrib(ProdForm, GroupA);
    LocateFound(TestForm, AttribDiff(GroupB), TestToProd, B, "<form>, <b>");
    LocateFound(ProdForm, AttribDiff(GroupA), ProdToTest, A, "<form>, <a>");
  }

  /** ... and the second pass's. */
  lemma SecondPassLocations()
    ensures Locate(TestForm, AttribDiff(GroupA), TestToProd) == Ok(Record(TestToProd, A, "<form>, <b>, <a>"))
    ensures Locate(ProdForm, AttribDiff(GroupB), ProdToTest) == Ok(Record(ProdToTest, B, "<form>, <a>, <b>"))
  {
    SwappedSearches();
    SwappedLocalized();
    FindAttrib(TestForm, GroupA);
    FindAttrib(ProdForm, GroupB);
    LocateFound(TestForm, AttribDiff(GroupA), TestToProd, A, "<form>, <b>, <a>");
    LocateFound(ProdForm, AttribDiff(GroupB), ProdToTest, B, "<form>, <a>, <b>");
  }

  lemma FindAttrib(form: Node, g: Group)
    requires g == GroupA || g == GroupB
    ensures Find(form, AttribDiff(g)) == Ok(FindTagByAttrib(form, g.0, g.1[0][0].0, g.1[0][0].1))
  {
  }

  lemma LocateFound(form: Node, subject: Subject, message: string, node: Node, location: string)
    requires Find(form, subject) == Ok(Some(node))
    requires LocalizeDifference(form, Some(node)) == Ok(location)
    ensures Locate(form, subject, message) == Ok(Record(message, node, location))
  {
  }

  /** The attribute test pairs group "a" with group "b" and group "b"
      with group "a", though each has an equal partner in the other form,
      and reports all four; the third location, "<form>, <b>, <a>", names
      the earlier sibling "b", which is not an ancestor of "a". */
  lemma SwappedSiblingsAttributes()
    ensures AttrRun(ProdForm, TestForm) == Run([
      Record(TestToProd, B, "<form>, <b>"),
      Record(ProdToTest, A, "<form>, <a>"),
      Record(TestToProd, A, "<form>, <b>, <a>"),
      Record(ProdToTest, B, "<form>, <a>, <b>")], None, false)
  {
    SwappedGroups();
    SwappedPairsLocated();
    SwappedTally();
  }

  /** Where zip's two pairs are located in the forms. */
  lemma SwappedPairsLocated()
    ensures LocatedPairs([GroupA, GroupB], [GroupB, GroupA], ProdForm, TestForm) == SwappedLocated
  {
    FirstPair();
    SecondPair();
  }

  lemma FirstPair()
    ensures LocatePair(GroupA, GroupB, ProdForm, TestForm) ==
      (Ok(Record(TestToProd, B, "<form>, <b>")), Ok(Record(ProdToTest, A, "<form>, <a>")))
  {
    FirstPassLocations();
  }

  lemma SecondPair()
    ensures LocatePair(GroupB, GroupA, ProdForm, TestForm) ==
      (Ok(Record(TestToProd, A, "<form>, <b>, <a>")), Ok(Record(ProdToTest, B, "<form>, <a>, <b>")))
  {
    SecondPassLocations();
  }

  const SwappedLocated: seq<Located> := [
    (Ok(Record(TestToProd, B, "<form>, <b>")), Ok(Record(ProdToTest, A, "<form>, <a>"))),
    (Ok(Record(TestToProd, A, "<form>, <b>, <a>")), Ok(Record(ProdToTest, B, "<form>, <a>, <b>")))]

  /** Both pairs mismatch, so the loop reports all four located groups. */
  lemma SwappedTally()
    ensures CompareGroups([GroupA, GroupB], [GroupB, GroupA], SwappedLocated, 2) == Tally(false, [
      Record(TestToProd, B, "<form>, <b>"),
      Record(ProdToTest, A, "<form>, <a>"),
      Record(TestToProd, A, "<form>, <b>, <a>"),
      Record(ProdToTest, B, "<form>, <a>, <b>")], None)
  {
    assert !GroupEqual(GroupA, GroupB) && !GroupEqual(GroupB, GroupA);
    assert CompareGroups([GroupA, GroupB], [GroupB, GroupA], SwappedLocated, 1) ==
      Tally(false, [Record(TestToProd, B, "<form>, <b>"), Record(ProdToTest, A, "<form>, <a>")], None);
  }
}
