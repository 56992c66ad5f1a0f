/** The CompareXml test case: the precondition gate on the two documents,
    the projections of the traversals, and the three comparisons (tags,
    texts, attributes) with their reports. Logging is modelled by the
    records a report returns; an exception ends a report early. */
module CompareXml {
  import opened Wrappers
  import opened Tree
  import opened Parser
  import opened Documents
  import opened Differences
  import opened Attributes
  import opened Location

  const TestToProd := "Difference test -> prod"
  const ProdToTest := "Difference prod -> test"

  /** get_document(index): the document inserted `index`-th, Python list
      indexing (a negative index counts from the end). */
  function GetDocument(documents: seq<Document>, index: int): (r: Result<Document>)
    ensures r.Ok? <==> -|documents| <= index < |documents|
    ensures r.Err? ==> r.error == IndexError
    ensures 0 <= index < |documents| ==> r == Ok(documents[index])
    ensures -|documents| <= index < 0 ==> r == Ok(documents[|documents| + index])
  {
    if 0 <= index < |documents| then Ok(documents[index])
    else if -|documents| <= index < 0 then Ok(documents[|documents| + index])
    else Err(IndexError)
  }

  /** get_tags(elements) */
  method GetTags(elements: seq<Node>) returns (tags: seq<string>)
    ensures |tags| == |elements|
    ensures forall i | 0 <= i < |elements| :: tags[i] == elements[i].tag
    ensures tags == Tags(elements)
  {
    tags := [];
    for i := 0 to |elements|
      invariant |tags| == i
      invariant forall j | 0 <= j < i :: tags[j] == elements[j].tag
    {
      tags := tags + [elements[i].tag];
    }
  }

  /** get_texts(elements): None stands where an element has no text. */
  method GetTexts(elements: seq<Node>) returns (texts: seq<Option<string>>)
    ensures |texts| == |elements|
    ensures forall i | 0 <= i < |elements| :: texts[i] == elements[i].text
    ensures texts == Texts(elements)
  {
    texts := [];
    for i := 0 to |elements|
      invariant |texts| == i
      invariant forall j | 0 <= j < i :: texts[j] == elements[j].text
    {
      texts := texts + [elements[i].text];
    }
  }

  /** compare_form_id: whether the first two documents carry the same form id. */
  function CompareFormId(documents: seq<Document>): (r: Result<bool>)
    reads documents
    ensures r.Ok? <==> |documents| >= 2
    ensures r.Err? ==> r.error == IndexError
    ensures r.Ok? ==> (r.value <==> documents[0].formId == documents[1].formId)
  {
    match (GetDocument(documents, 0), GetDocument(documents, 1))
    case (Ok(d0), Ok(d1)) => Ok(d0.GetFormId() == d1.GetFormId())
    case (Err(e), _) => Err(e)
    case (_, Err(e)) => Err(e)
  }

  /** compare_contract_number: whether the texts of the first two
      documents' contract-number elements agree. The first document's text
      is read before the second document is looked up; reading .text of a
      missing element raises AttributeError. */
  function CompareContractNumber(documents: seq<Document>): (r: Result<bool>)
    reads documents
    ensures r.Ok? <==> |documents| >= 2 && documents[0].contractNumber.Some? && documents[1].contractNumber.Some?
    ensures |documents| == 0 ==> r == Err(IndexError)
    ensures |documents| >= 1 && documents[0].contractNumber.None? ==> r == Err(AttributeError)
    ensures |documents| == 1 && documents[0].contractNumber.Some? ==> r == Err(IndexError)
    ensures |documents| >= 2 && r.Err? ==> r.error == AttributeError
    ensures r.Ok? ==> (r.value <==> documents[0].contractNumber.value.text == documents[1].contractNumber.value.text)
  {
    match GetDocument(documents, 0)
    case Err(e) => Err(e)
    case Ok(d0) =>
      if d0.GetContractNumber().None? then Err(AttributeError)
      else
        match GetDocument(documents, 1)
        case Err(e) => Err(e)
        case Ok(d1) =>
          if d1.GetContractNumber().None? then Err(AttributeError)
          else Ok(d0.GetContractNumber().value.text == d1.GetContractNumber().value.text)
  }

  /** check_preconditions: passes when the form ids and then the
      contract-number texts agree; the contract numbers are not looked at
      once the form ids differ. */
  function CheckPreconditions(documents: seq<Document>): (r: Result<()>)
    reads documents
    ensures r.Ok? <==>
      |documents| >= 2 && documents[0].formId == documents[1].formId &&
      documents[0].contractNumber.Some? && documents[1].contractNumber.Some? &&
      documents[0].contractNumber.value.text == documents[1].contractNumber.value.text
    ensures |documents| < 2 ==> r == Err(IndexError)
    ensures |documents| >= 2 && documents[0].formId != documents[1].formId ==> r == Err(AssertionError)
    ensures (|documents| >= 2 && documents[0].formId == documents[1].formId &&
      (documents[0].contractNumber.None? || documents[1].contractNumber.None?)) ==> r == Err(AttributeError)
    ensures (|documents| >= 2 && documents[0].formId == documents[1].formId &&
      documents[0].contractNumber.Some? && documents[1].contractNumber.Some? &&
      documents[0].contractNumber.value.text != documents[1].contractNumber.value.text) ==> r == Err(AssertionError)
  {
    match CompareFormId(documents)
    case Err(e) => Err(e)
    case Ok(false) => Err(AssertionError)
    case Ok(true) =>
      match CompareContractNumber(documents)
      case Err(e) => Err(e)
      case Ok(false) => Err(AssertionError)
      case Ok(true) => Ok(())
  }

  /** A value one of the report_*_differences searches for. */
  datatype Subject =
    | TagDiff(tag: string)
    | TextDiff(text: Option<string>)
    | AttribDiff(group: Group)

  /** '{}'.format(v): None is spelled "None". */
  function Format(v: Option<string>): string
  {
    if v.Some? then v.value else "None"
  }

  /** The element a report looks up for `subject`. For an attribute group
      it is found by the first attribute of the group's first map; a group
      or map without entries raises IndexError. */
  function Find(form: Node, subject: Subject): Result<Option<Node>>
  {
    match subject
    case TagDiff(tag) => Ok(FindTagByName(form, tag))
    case TextDiff(text) => Ok(FindTagByText(form, Format(text)))
    case AttribDiff(group) =>
      if |group.1| == 0 || |group.1[0]| == 0 then Err(IndexError)
      else Ok(FindTagByAttrib(form, group.0, group.1[0][0].0, group.1[0][0].1))
  }

  /** One logged report line: its message, the element found and its location. */
  datatype Record = Record(message: string, node: Node, location: string)

  /** Finds and locates one difference. */
  function Locate(form: Node, subject: Subject, message: string): (r: Result<Record>)
    ensures r.Ok? <==> Find(form, subject).Ok? && Find(form, subject).value.Some?
    ensures r.Err? ==> r.error == (if Find(form, subject).Err? then IndexError else ValueError)
    ensures r.Ok? ==> r.value.message == message && r.value.node == Find(form, subject).value.value
    ensures r.Ok? ==> r.value.node in GetChildren(form)[1..]
    ensures r.Ok? ==> StartsWith(r.value.location, Wrap(form.tag)) && EndsWith(r.value.location, Wrap(r.value.node.tag))
    ensures r.Ok? ==> r.value.location == LocalizeDifference(form, Some(r.value.node)).value
  {
    match Find(form, subject)
    case Err(e) => Err(e)
    case Ok(found) =>
      match LocalizeDifference(form, found)
      case Err(e) => Err(e)
      case Ok(location) => Ok(Record(message, found.value, location))
  }

  /** The records a report_*_differences loop logs for `subjects`, in
      order, and the exception that stopped it, if one did. */
  datatype Outcome = Outcome(records: seq<Record>, failure: Option<Exception>)

  /** The outcome of running steps in order until one raises: the
      records of the steps before it, and its exception. */
  function Collect(steps: seq<Result<Record>>): (r: Outcome)
    ensures |r.records| <= |steps|
    ensures forall i | 0 <= i < |r.records| :: steps[i] == Ok(r.records[i])
    ensures r.failure.None? ==> |r.records| == |steps|
    ensures r.failure.Some? ==> (|r.records| < |steps| && steps[|r.records|] == Err(r.failure.value))
    decreases |steps|
  {
    if steps == [] then Outcome([], None)
    else
      var n := |steps| - 1;
      var prev := Collect(steps[..n]);
      if prev.failure.Some? then prev
      else match steps[n]
        case Err(e) => Outcome(prev.records, Some(e))
        case Ok(record) => Outcome(prev.records + [record], None)
  }

  /** Once a step has raised, later steps are never run. */
  lemma {:induction false} CollectStopsAtFailure(steps: seq<Result<Record>>, i: nat)
    requires i <= |steps|
    requires Collect(steps[..i]).failure.Some?
    ensures Collect(steps) == Collect(steps[..i])
    decreases |steps| - i
  {
    if i < |steps| {
      var n := |steps| - 1;
      assert steps[..n][..i] == steps[..i];
      CollectStopsAtFailure(steps[..n], i);
    } else {
      assert steps[..i] == steps;
    }
  }

  lemma CollectStep(steps: seq<Result<Record>>, i: nat)
    requires i < |steps|
    ensures Collect(steps[..i + 1]) ==
      var prev := Collect(steps[..i]);
      if prev.failure.Some? then prev
      else match steps[i]
        case Err(e) => Outcome(prev.records, Some(e))
        case Ok(record) => Outcome(prev.records + [record], None)
  {
    assert steps[..i + 1][..i] == steps[..i];
  }

  /** Locating each subject in turn. */
  function Steps(form: Node, subjects: seq<Subject>, message: string): seq<Result<Record>>
  {
    seq(|subjects|, i requires 0 <= i < |subjects| => Locate(form, subjects[i], message))
  }

  /** The loop of report_tag_differences and report_text_differences: one
      record per subject, in order, until a subject cannot be located. */
  function Report(form: Node, subjects: seq<Subject>, message: string): Outcome
  {
    Collect(Steps(form, subjects, message))
  }

  function TagSubjects(diff: seq<string>): seq<Subject>
  {
    seq(|diff|, i requires 0 <= i < |diff| => TagDiff(diff[i]))
  }

  function TextSubjects(diff: seq<Option<string>>): seq<Subject>
  {
    seq(|diff|, i requires 0 <= i < |diff| => TextDiff(diff[i]))
  }

  /** report_tag_differences(diff, form, message) */
  method ReportTagDifferences(diff: seq<string>, form: Node, message: string) returns (out: Outcome)
    ensures out == Report(form, TagSubjects(diff), message)
  {
    ghost var steps := Steps(form, TagSubjects(diff), message);
    out := Outcome([], None);
    var i := 0;
    while i < |diff|
      invariant 0 <= i <= |diff|
      invariant out == Collect(steps[..i]) && out.failure.None?
    {
      CollectStep(steps, i);
      var difference := FindTagByName(form, diff[i]);
      var location := LocalizeDifference(form, difference);
      if location.Err? {
        out := Outcome(out.records, Some(location.error));
        CollectStopsAtFailure(steps, i + 1);
        return;
      }
      out := Outcome(out.records + [Record(message, difference.value, location.value)], None);
      i := i + 1;
    }
    assert steps[..i] == steps;
  }

  /** report_text_differences(diff, form, message) */
  method ReportTextDifferences(diff: seq<Option<string>>, form: Node, message: string) returns (out: Outcome)
    ensures out == Report(form, TextSubjects(diff), message)
  {
    ghost var steps := Steps(form, TextSubjects(diff), message);
    out := Outcome([], None);
    var i := 0;
    while i < |diff|
      invariant 0 <= i <= |diff|
      invariant out == Collect(steps[..i]) && out.failure.None?
    {
      CollectStep(steps, i);
      var difference := FindTagByText(form, Format(diff[i]));
      var location := LocalizeDifference(form, difference);
      if location.Err? {
        out := Outcome(out.records, Some(location.error));
        CollectStopsAtFailure(steps, i + 1);
        return;
      }
      out := Outcome(out.records + [Record(message, difference.value, location.value)], None);
      i := i + 1;
    }
    assert steps[..i] == steps;
  }

  /** report_attribute_differences(diff, form, message): locates one group
      by the first attribute of its first map. */
  method ReportAttributeDifferences(diff: Group, form: Node, message: string) returns (r: Result<Record>)
    ensures r == Locate(form, AttribDiff(diff), message)
  {
    var tag := diff.0;
    if |diff.1| == 0 || |diff.1[0]| == 0 {
      return Err(IndexError);
    }
    var attribute := diff.1[0][0].0;
    var value := diff.1[0][0].1;
    var difference := FindTagByAttrib(form, tag, attribute, value);
    var location := LocalizeDifference(form, difference);
    if location.Err? {
      return Err(location.error);
    }
    r := Ok(Record(message, difference.value, location.value));
  }

  /** The tags of the proper descendants of `form`. */
  function DescendantTags(form: Node): seq<string>
  {
    Tags(GetChildren(form)[1..])
  }

  /** A tag report runs through exactly when every tag it is given is the
      tag of some proper descendant of the form. */
  lemma {:induction false} TagReportRunsThrough(form: Node, diff: seq<string>, message: string)
    ensures Report(form, TagSubjects(diff), message).failure.None? <==>
      forall i | 0 <= i < |diff| :: diff[i] in DescendantTags(form)
    ensures Report(form, TagSubjects(diff), message).failure.Some? ==>
      Report(form, TagSubjects(diff), message).failure == Some(ValueError)
  {
    var steps := Steps(form, TagSubjects(diff), message);
    forall i | 0 <= i < |diff|
      ensures steps[i].Ok? <==> diff[i] in DescendantTags(form)
      ensures steps[i].Err? ==> steps[i].error == ValueError
    {
      assert steps[i] == Locate(form, TagDiff(diff[i]), message);
      TagLocated(form, diff[i], message);
    }
  }

  /** One tag subject is located exactly when it is the tag of a proper
      descendant; otherwise locating it raises ValueError. */
  lemma TagLocated(form: Node, tag: string, message: string)
    ensures Locate(form, TagDiff(tag), message).Ok? <==> tag in DescendantTags(form)
    ensures Locate(form, TagDiff(tag), message).Err? ==> Locate(form, TagDiff(tag), message).error == ValueError
  {
    var flat := GetChildren(form);
    var dt := DescendantTags(form);
    assert forall k | 1 <= k < |flat| :: flat[k].tag == dt[k - 1];
    if tag in dt {
      var k :| 0 <= k < |dt| && dt[k] == tag;
      assert flat[k + 1].tag == tag;
    }
  }

  /** A run's outcome: the records logged, the exception that ended it, if
      any, and whether it logged that there were no differences. */
  datatype Run = Run(records: seq<Record>, failure: Option<Exception>, reportedClean: bool)

  /** Runs `second` only when `first` did not raise. */
  function Then(first: Outcome, second: Outcome): Outcome
  {
    if first.failure.Some? then first else Outcome(first.records + second.records, second.failure)
  }

  /** test_tag_differences on the two forms. */
  function TagRun(prod: Node, test: Node): Run
  {
    var diff := RetrieveDifferences(Tags(GetChildren(prod)), Tags(GetChildren(test)));
    if |diff| > 0 then
      var o := Then(Report(test, TagSubjects(diff[1]), TestToProd), Report(prod, TagSubjects(diff[0]), ProdToTest));
      Run(o.records, o.failure, false)
    else
      Run([], None, true)
  }

  /** test_text_differences on the two forms. */
  function TextRun(prod: Node, test: Node): Run
  {
    var diff := RetrieveDifferences(Texts(GetChildren(prod)), Texts(GetChildren(test)));
    if |diff| > 0 then
      var o := Then(Report(test, TextSubjects(diff[1]), TestToProd), Report(prod, TextSubjects(diff[0]), ProdToTest));
      Run(o.records, o.failure, false)
    else
      Run([], None, true)
  }

  /** retrieve_differences always returns two lists, so `if diff:` always
      holds and "No differences" is never logged by the tag and text tests. */
  lemma NeverReportedClean(prod: Node, test: Node)
    ensures !TagRun(prod, test).reportedClean && !TextRun(prod, test).reportedClean
  {
  }

  /** A form compared with itself yields no tag or text records. */
  lemma RunsOfSameForm(form: Node)
    ensures TagRun(form, form) == Run([], None, false)
    ensures TextRun(form, form) == Run([], None, false)
  {
    DifferencesOfSelf(Tags(GetChildren(form)));
    DifferencesOfSelf(Texts(GetChildren(form)));
    assert TagSubjects([]) == [] && TextSubjects([]) == [];
    assert Steps(form, [], TestToProd) == [] && Steps(form, [], ProdToTest) == [];
  }

  /** Each record of a tag report names a proper descendant of the form
      carrying one of the tags given. */
  lemma TagReportSound(form: Node, diff: seq<string>, message: string)
    ensures forall r | r in Report(form, TagSubjects(diff), message).records ::
      r.message == message && r.node in GetChildren(form)[1..] && r.node.tag in diff
  {
    var o := Report(form, TagSubjects(diff), message);
    var steps := Steps(form, TagSubjects(diff), message);
    forall i | 0 <= i < |o.records|
      ensures o.records[i].message == message && o.records[i].node in GetChildren(form)[1..] && o.records[i].node.tag == diff[i]
    {
      assert steps[i] == Ok(o.records[i]);
    }
  }

  /** The records of two reports run one after the other come from one or the other. */
  lemma ThenRecords(first: Outcome, second: Outcome)
    ensures forall r | r in Then(first, second).records :: r in first.records || r in second.records
  {
  }

  /** Every tag record names an element, below its form's root, whose tag
      the other form lacks entirely: test -> prod records come from the
      test form, prod -> test records from the production form. */
  lemma TagRecordsSound(prod: Node, test: Node)
    ensures forall r | r in TagRun(prod, test).records ::
      (r.message == TestToProd && r.node in GetChildren(test)[1..] && r.node.tag !in Tags(GetChildren(prod))) ||
      (r.message == ProdToTest && r.node in GetChildren(prod)[1..] && r.node.tag !in Tags(GetChildren(test)))
  {
    var tp, tt := Tags(GetChildren(prod)), Tags(GetChildren(test));
    var diff := RetrieveDifferences(tp, tt);
    var o1 := Report(test, TagSubjects(diff[1]), TestToProd);
    var o2 := Report(prod, TagSubjects(diff[0]), ProdToTest);
    assert TagRun(prod, test).records == Then(o1, o2).records;
    ThenRecords(o1, o2);
    TagSideSound(test, tt, tp, diff[1], TestToProd);
    TagSideSound(prod, tp, tt, diff[0], ProdToTest);
  }

  /** A tag report over the tags of `mine` missing from `theirs` names
      elements of `form` carrying such a tag. */
  lemma TagSideSound(form: Node, mine: seq<string>, theirs: seq<string>, d: seq<string>, message: string)
    requires Elements(d) == Elements(mine) - Elements(theirs)
    ensures forall r | r in Report(form, TagSubjects(d), message).records ::
      r.message == message && r.node in GetChildren(form)[1..] && r.node.tag !in theirs
  {
    TagReportSound(form, d, message);
    assert forall t | t in d :: t in Elements(d);
  }

  /** The tag test raises (ValueError, from locating None) exactly when a
      form's root tag is missing from the other form and is not reused
      inside its own form: find_tag_by_name never looks at the root. */
  lemma TagRunRaises(prod: Node, test: Node)
    ensures TagRun(prod, test).failure.Some? <==>
      (test.tag !in Tags(GetChildren(prod)) && test.tag !in DescendantTags(test)) ||
      (prod.tag !in Tags(GetChildren(test)) && prod.tag !in DescendantTags(prod))
    ensures TagRun(prod, test).failure.Some? ==> TagRun(prod, test).failure == Some(ValueError)
  {
    var tp, tt := Tags(GetChildren(prod)), Tags(GetChildren(test));
    var diff := RetrieveDifferences(tp, tt);
    TagReportRunsThrough(test, diff[1], TestToProd);
    TagReportRunsThrough(prod, diff[0], ProdToTest);
    OnlyRootEscapes(test, tp, diff[1]);
    OnlyRootEscapes(prod, tt, diff[0]);
  }

  /** Among the tags of `form` missing from `other`, only the root's own
      tag can be missing from the descendants' tags too. */
  lemma OnlyRootEscapes(form: Node, other: seq<string>, d: seq<string>)
    requires Elements(d) == Elements(Tags(GetChildren(form))) - Elements(other)
    ensures (forall i | 0 <= i < |d| :: d[i] in DescendantTags(form)) <==>
      !(form.tag !in other && form.tag !in DescendantTags(form))
  {
    var flat := GetChildren(form);
    var tf := Tags(flat);
    var dt := DescendantTags(form);
    assert tf == [form.tag] + dt;
    if form.tag !in other && form.tag !in dt {
      assert form.tag in Elements(d);
    } else {
      forall i | 0 <= i < |d| ensures d[i] in dt {
        assert d[i] in Elements(d);
        assert d[i] in tf && d[i] !in Elements(other);
      }
    }
  }

  /** Some proper descendant of `form` has a text containing `s`. */
  predicate TextFound(form: Node, s: string)
  {
    exists k | 1 <= k < |GetChildren(form)| :: Contains(TextValue(GetChildren(form)[k]), s)
  }

  /** A text report runs through exactly when every text it is given, as
      str.format renders it, occurs in the text of some proper descendant;
      otherwise it raises ValueError. */
  lemma {:induction false} TextReportRunsThrough(form: Node, diff: seq<Option<string>>, message: string)
    ensures Report(form, TextSubjects(diff), message).failure.None? <==>
      forall i | 0 <= i < |diff| :: TextFound(form, Format(diff[i]))
    ensures Report(form, TextSubjects(diff), message).failure.Some? ==>
      Report(form, TextSubjects(diff), message).failure == Some(ValueError)
  {
    var steps := Steps(form, TextSubjects(diff), message);
    forall i | 0 <= i < |diff|
      ensures steps[i].Ok? <==> TextFound(form, Format(diff[i]))
      ensures steps[i].Err? ==> steps[i].error == ValueError
    {
      assert steps[i] == Locate(form, TextDiff(diff[i]), message);
      TextLocated(form, diff[i], message);
    }
  }

  /** One text subject is located exactly when some proper descendant's
      text contains its rendering; otherwise locating it raises ValueError. */
  lemma TextLocated(form: Node, v: Option<string>, message: string)
    ensures Locate(form, TextDiff(v), message).Ok? <==> TextFound(form, Format(v))
    ensures Locate(form, TextDiff(v), message).Err? ==> Locate(form, TextDiff(v), message).error == ValueError
  {
  }

  /** Each record of a text report names a proper descendant of the form
      whose text contains the rendering of one of the values given. */
  lemma TextReportSound(form: Node, diff: seq<Option<string>>, message: string)
    ensures forall r | r in Report(form, TextSubjects(diff), message).records ::
      r.message == message && r.node in GetChildren(form)[1..] &&
      exists v :: v in diff && Contains(TextValue(r.node), Format(v))
  {
    var o := Report(form, TextSubjects(diff), message);
    var steps := Steps(form, TextSubjects(diff), message);
    forall i | 0 <= i < |o.records|
      ensures o.records[i].message == message && o.records[i].node in GetChildren(form)[1..]
      ensures Contains(TextValue(o.records[i].node), Format(diff[i]))
    {
      assert steps[i] == Ok(o.records[i]);
    }
  }

  /** Every text record names an element, below its form's root, whose text
      contains the rendering of a text value the other form lacks. */
  lemma TextRecordsSound(prod: Node, test: Node)
    ensures forall r | r in TextRun(prod, test).records ::
      (r.message == TestToProd && r.node in GetChildren(test)[1..] &&
        exists v :: v in Texts(GetChildren(test)) && v !in Texts(GetChildren(prod)) && Contains(TextValue(r.node), Format(v))) ||
      (r.message == ProdToTest && r.node in GetChildren(prod)[1..] &&
        exists v :: v in Texts(GetChildren(prod)) && v !in Texts(GetChildren(test)) && Contains(TextValue(r.node), Format(v)))
  {
    var xp, xt := Texts(GetChildren(prod)), Texts(GetChildren(test));
    var diff := RetrieveDifferences(xp, xt);
    var o1 := Report(test, TextSubjects(diff[1]), TestToProd);
    var o2 := Report(prod, TextSubjects(diff[0]), ProdToTest);
    assert TextRun(prod, test).records == Then(o1, o2).records;
    ThenRecords(o1, o2);
    TextSideSound(test, xt, xp, diff[1], TestToProd);
    TextSideSound(prod, xp, xt, diff[0], ProdToTest);
  }

  /** A text report over the values of `mine` missing from `theirs` names
      elements of `form` containing such a value. */
  lemma TextSideSound(form: Node, mine: seq<Option<string>>, theirs: seq<Option<string>>, d: seq<Option<string>>, message: string)
    requires Elements(d) == Elements(mine) - Elements(theirs)
    ensures forall r | r in Report(form, TextSubjects(d), message).records ::
      r.message == message && r.node in GetChildren(form)[1..] &&
      exists v :: v in mine && v !in theirs && Contains(TextValue(r.node), Format(v))
  {
    TextReportSound(form, d, message);
    assert forall v | v in d :: v in Elements(d);
  }

  /** An element without text in the test form only puts None among the
      differences; it is searched for as the string "None", and unless
      some text in the test form contains that string the text test
      raises ValueError before reporting anything about production. */
  lemma TextRunMissingText(prod: Node, test: Node)
    requires None in Texts(GetChildren(test)) && None !in Texts(GetChildren(prod))
    requires !TextFound(test, "None")
    ensures TextRun(prod, test).failure == Some(ValueError)
    ensures forall r | r in TextRun(prod, test).records :: r.message == TestToProd
  {
    var xp, xt := Texts(GetChildren(prod)), Texts(GetChildren(test));
    var diff := RetrieveDifferences(xp, xt);
    assert None in Elements(diff[1]);
    var j :| 0 <= j < |diff[1]| && diff[1][j] == None;
    assert Format(diff[1][j]) == "None";
    TextReportRunsThrough(test, diff[1], TestToProd);
  }

  /** The attribute groups of the two forms, compared as Python tuples:
      the tags and then the lists of attribute maps, each map as a dict. */
  predicate GroupEqual(p: Group, q: Group)
  {
    p.0 == q.0 && |p.1| == |q.1| && forall i | 0 <= i < |p.1| :: AttrMap(p.1[i]) == AttrMap(q.1[i])
  }

  /** The state of test_attribute_differences' zip loop: the success flag,
      the records logged, and the exception that ended it, if any. */
  datatype Tally = Tally(success: bool, records: seq<Record>, failure: Option<Exception>)

  /** What locating the two groups of one pair gives: the test group's
      record (or exception), then the production group's. */
  type Located = (Result<Record>, Result<Record>)

  function LocatePair(p: Group, q: Group, prod: Node, test: Node): Located
  {
    (Locate(test, AttribDiff(q), TestToProd), Locate(prod, AttribDiff(p), ProdToTest))
  }

  /** The pairs zip produces, each located in its form. */
  function LocatedPairs(gp: seq<Group>, gt: seq<Group>, prod: Node, test: Node): (r: seq<Located>)
    ensures |r| == Min(|gp|, |gt|)
    decreases |gp|
  {
    if gp == [] || gt == [] then []
    else [LocatePair(gp[0], gt[0], prod, test)] + LocatedPairs(gp[1..], gt[1..], prod, test)
  }

  /** zip pairs by position: the i-th pair is the i-th production group
      with the i-th test group, whatever their tags. */
  lemma {:induction false} LocatedPairsPositional(gp: seq<Group>, gt: seq<Group>, prod: Node, test: Node, i: nat)
    requires i < Min(|gp|, |gt|)
    ensures LocatedPairs(gp, gt, prod, test)[i] == LocatePair(gp[i], gt[i], prod, test)
    decreases i
  {
    if i > 0 {
      LocatedPairsPositional(gp[1..], gt[1..], prod, test, i - 1);
    }
  }

  /** One pass of the zip loop's body after the passes that left `prev`:
      a mismatched pair clears the flag and reports both groups, the test
      group first (the production group is not located when the test
      group raised); an exception ends the loop. */
  function PairStep(prev: Tally, equal: bool, located: Located): Tally
  {
    if prev.failure.Some? || equal then prev
    else if located.0.Err? then Tally(false, prev.records, Some(located.0.error))
    else if located.1.Err? then Tally(false, prev.records + [located.0.value], Some(located.1.error))
    else Tally(false, prev.records + [located.0.value, located.1.value], None)
  }

  /** The zip loop after its first `n` pairs: the i-th group of the
      production form against the i-th group of the test form, whatever
      their tags; `located` holds what locating each pair gives. */
  function CompareGroups(gp: seq<Group>, gt: seq<Group>, located: seq<Located>, n: nat): Tally
    requires n <= |gp| && n <= |gt| && n <= |located|
  {
    if n == 0 then Tally(true, [], None)
    else PairStep(CompareGroups(gp, gt, located, n - 1), GroupEqual(gp[n - 1], gt[n - 1]), located[n - 1])
  }

  /** Without an exception, the flag stays true exactly when every
      compared pair is equal. */
  lemma {:induction false} CompareGroupsSuccess(gp: seq<Group>, gt: seq<Group>, located: seq<Located>, n: nat)
    requires n <= |gp| && n <= |gt| && n <= |located|
    ensures CompareGroups(gp, gt, located, n).failure.None? ==>
      (CompareGroups(gp, gt, located, n).success <==> forall i | 0 <= i < n :: GroupEqual(gp[i], gt[i]))
  {
    if n > 0 {
      CompareGroupsSuccess(gp, gt, located, n - 1);
    }
  }

  /** When every compared pair is equal, nothing is logged and nothing raised. */
  lemma {:induction false} CompareEqualGroups(gp: seq<Group>, gt: seq<Group>, located: seq<Located>, n: nat)
    requires n <= |gp| && n <= |gt| && n <= |located|
    requires forall i | 0 <= i < n :: GroupEqual(gp[i], gt[i])
    ensures CompareGroups(gp, gt, located, n) == Tally(true, [], None)
  {
    if n > 0 {
      CompareEqualGroups(gp, gt, located, n - 1);
    }
  }

  /** Once the loop has raised, later pairs are never compared. */
  lemma {:induction false} CompareGroupsStops(gp: seq<Group>, gt: seq<Group>, located: seq<Located>, i: nat, n: nat)
    requires i <= n <= |gp| && n <= |gt| && n <= |located|
    requires CompareGroups(gp, gt, located, i).failure.Some?
    ensures CompareGroups(gp, gt, located, n) == CompareGroups(gp, gt, located, i)
    decreases n - i
  {
    if i < n {
      CompareGroupsStops(gp, gt, located, i, n - 1);
    }
  }

  function Min(a: nat, b: nat): nat
  {
    if a <= b then a else b
  }

  /** Every pair zip produces from the two lists of groups is equal. */
  predicate PairsAgree(gp: seq<Group>, gt: seq<Group>)
  {
    forall i | 0 <= i < Min(|gp|, |gt|) :: GroupEqual(gp[i], gt[i])
  }

  /** test_attribute_differences on the two forms: zip stops at the
      shorter list of groups; "No differences" is logged when the flag is
      still true after the loop. */
  function AttrRun(prod: Node, test: Node): Run
  {
    var gp, gt := Groups(GetChildren(prod)), Groups(GetChildren(test));
    var t := CompareGroups(gp, gt, LocatedPairs(gp, gt, prod, test), Min(|gp|, |gt|));
    Run(t.records, t.failure, t.failure.None? && t.success)
  }

  /** Groups beyond the shorter list are never compared: if the paired
      groups agree, the run is clean however many groups one side has
      in excess. A form compared with itself is the special case. */
  lemma AttrRunComparesPairsOnly(prod: Node, test: Node)
    requires PairsAgree(Groups(GetChildren(prod)), Groups(GetChildren(test)))
    ensures AttrRun(prod, test) == Run([], None, true)
  {
    var gp, gt := Groups(GetChildren(prod)), Groups(GetChildren(test));
    CompareEqualGroups(gp, gt, LocatedPairs(gp, gt, prod, test), Min(|gp|, |gt|));
  }

  lemma AttrRunOfSameForm(form: Node)
    ensures AttrRun(form, form) == Run([], None, true)
  {
    AttrRunComparesPairsOnly(form, form);
  }

  /** Without an exception, "No differences between attributes" is logged
      exactly when every pair zip produced is equal. */
  lemma AttrRunClean(prod: Node, test: Node)
    ensures AttrRun(prod, test).failure.None? ==>
      (AttrRun(prod, test).reportedClean <==> PairsAgree(Groups(GetChildren(prod)), Groups(GetChildren(test))))
  {
    var gp, gt := Groups(GetChildren(prod)), Groups(GetChildren(test));
    CompareGroupsSuccess(gp, gt, LocatedPairs(gp, gt, prod, test), Min(|gp|, |gt|));
  }

  /** The forms of the first two documents, or the IndexError get_document raises. */
  function Forms(documents: seq<Document>): (r: Result<(Node, Node)>)
    reads documents
    ensures r.Ok? <==> |documents| >= 2
    ensures r.Ok? ==> r.value == (documents[0].form, documents[1].form)
    ensures r.Err? ==> r.error == IndexError
  {
    match (GetDocument(documents, 0), GetDocument(documents, 1))
    case (Ok(d0), Ok(d1)) => Ok((d0.GetForm(), d1.GetForm()))
    case (Err(e), _) => Err(e)
    case (_, Err(e)) => Err(e)
  }

  /** test_tag_differences */
  method TestTagDifferences(documents: seq<Document>) returns (run: Run)
    ensures |documents| < 2 ==> run == Run([], Some(IndexError), false)
    ensures |documents| >= 2 ==> run == TagRun(documents[0].form, documents[1].form)
  {
    var forms := Forms(documents);
    if forms.Err? {
      return Run([], Some(forms.error), false);
    }
    var (prodForm, testForm) := forms.value;
    var nodesProd := GetChildren(prodForm);
    var nodesTest := GetChildren(testForm);
    var tagsProd := GetTags(nodesProd);
    var tagsTest := GetTags(nodesTest);
    var diff := RetrieveDifferences(tagsProd, tagsTest);
    if |diff| > 0 {
      var first := ReportTagDifferences(diff[1], testForm, TestToProd);
      if first.failure.Some? {
        return Run(first.records, first.failure, false);
      }
      var second := ReportTagDifferences(diff[0], prodForm, ProdToTest);
      run := Run(first.records + second.records, second.failure, false);
    } else {
      run := Run([], None, true);
    }
  }

  /** test_text_differences */
  method TestTextDifferences(documents: seq<Document>) returns (run: Run)
    ensures |documents| < 2 ==> run == Run([], Some(IndexError), false)
    ensures |documents| >= 2 ==> run == TextRun(documents[0].form, documents[1].form)
  {
    var forms := Forms(documents);
    if forms.Err? {
      return Run([], Some(forms.error), false);
    }
    var (prodForm, testForm) := forms.value;
    var nodesProd := GetChildren(prodForm);
    var nodesTest := GetChildren(testForm);
    var textsProd := GetTexts(nodesProd);
    var textsTest := GetTexts(nodesTest);
    var diff := RetrieveDifferences(textsProd, textsTest);
    if |diff| > 0 {
      var first := ReportTextDifferences(diff[1], testForm, TestToProd);
      if first.failure.Some? {
        return Run(first.records, first.failure, false);
      }
      var second := ReportTextDifferences(diff[0], prodForm, ProdToTest);
      run := Run(first.records + second.records, second.failure, false);
    } else {
      run := Run([], None, true);
    }
  }

  /** The body of the zip loop of test_attribute_differences on one pair. */
  method ComparePair(prev: Tally, attributesProd: seq<Group>, attributesTest: seq<Group>, i: nat, prodForm: Node, testForm: Node)
    returns (next: Tally)
    requires prev.failure.None? && i < |attributesProd| && i < |attributesTest|
    ensures next == PairStep(prev, GroupEqual(attributesProd[i], attributesTest[i]),
      LocatedPairs(attributesProd, attributesTest, prodForm, testForm)[i])
  {
    var attribProd, attribTest := attributesProd[i], attributesTest[i];
    LocatedPairsPositional(attributesProd, attributesTest, prodForm, testForm, i);
    next := prev;
    if !GroupEqual(attribProd, attribTest) {
      var r1 := ReportAttributeDifferences(attribTest, testForm, TestToProd);
      if r1.Err? {
        return Tally(false, prev.records, Some(r1.error));
      }
      var r2 := ReportAttributeDifferences(attribProd, prodForm, ProdToTest);
      if r2.Err? {
        return Tally(false, prev.records + [r1.value], Some(r2.error));
      }
      next := Tally(false, prev.records + [r1.value, r2.value], None);
    }
  }

  /** The zip loop of test_attribute_differences over the two lists of
      groups, with its success flag and its early exit on an exception. */
  method CompareAttributeGroups(attributesProd: seq<Group>, attributesTest: seq<Group>, prodForm: Node, testForm: Node)
    returns (tally: Tally)
    ensures tally == CompareGroups(attributesProd, attributesTest, LocatedPairs(attributesProd, attributesTest, prodForm, testForm),
      Min(|attributesProd|, |attributesTest|))
  {
    ghost var located := LocatedPairs(attributesProd, attributesTest, prodForm, testForm);
    tally := Tally(true, [], None);
    var n := Min(|attributesProd|, |attributesTest|);
    var i := 0;
    while i < n && tally.failure.None?
      invariant i <= n
      invariant tally == CompareGroups(attributesProd, attributesTest, located, i)
    {
      tally := ComparePair(tally, attributesProd, attributesTest, i, prodForm, testForm);
      i := i + 1;
    }
    if i < n {
      CompareGroupsStops(attributesProd, attributesTest, located, i, n);
    }
  }

  /** test_attribute_differences */
  method TestAttributeDifferences(documents: seq<Document>) returns (run: Run)
    ensures |documents| < 2 ==> run == Run([], Some(IndexError), false)
    ensures |documents| >= 2 ==> run == AttrRun(documents[0].form, documents[1].form)
  {
    var forms := Forms(documents);
    if forms.Err? {
      return Run([], Some(forms.error), false);
    }
    var (prodForm, testForm) := forms.value;
    var nodesProd := GetChildren(prodForm);
    var nodesTest := GetChildren(testForm);
    var attributesProd := GetAttributes(nodesProd);
    var attributesTest := GetAttributes(nodesTest);
    var tally := CompareAttributeGroups(attributesProd, attributesTest, prodForm, testForm);
    run := Run(tally.records, tally.failure, tally.failure.None? && tally.success);
  }

  /** The unittest run over already parsed documents: setUpClass ends with
      check_preconditions, and only if it passes do the tests run, in
      unittest's alphabetical order. */
  method RunSuite(documents: seq<Document>) returns (gate: Result<()>, runs: seq<Run>)
    ensures gate == CheckPreconditions(documents)
    ensures gate.Err? ==> runs == []
    ensures gate.Ok? ==> |documents| >= 2 && runs == [
      AttrRun(documents[0].form, documents[1].form),
      TagRun(documents[0].form, documents[1].form),
      TextRun(documents[0].form, documents[1].form)]
  {
    gate := CheckPreconditions(documents);
    if gate.Err? {
      return gate, [];
    }
    var attributes := TestAttributeDifferences(documents);
    var tags := TestTagDifferences(documents);
    var texts := TestTextDifferences(documents);
    runs := [attributes, tags, texts];
  }
}
