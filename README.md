# xml_comparison in Dafny

This project models the comparison core of `xml_comparison`, a unittest suite
that compares a production XML form against a test form. The model covers:

- **Documents** (`document.dfy`, module `Documents`). A `Document` record
  holds a form id, a contract-number element and the document's root
  element, which is what the comparisons search (`form`). It is a
  class whose three fields the setters overwrite one at a time.
- **The element tree** (`tree.dfy`, module `Tree`). An element is a
  datatype with a tag, an optional text, its attributes as ordered
  `(name, value)` pairs, and its children. Each element carries an `id`
  that stands for the identity of the lxml object.
- **The parser helpers** (`parser.dfy`, module `Parser`):
  - `UniqueIds`, the condition that ids are unique in a tree, so that
    `list.index` finds an element by identity;
  - the pre-order traversal `get_children`;
  - the first-match searches `find_tag` (the root and its subtree) and
    `find_tag_by_name`, `find_tag_by_text` and `find_tag_by_attrib`
    (proper descendants only, the `.//` step of XPath 1.0);
  - `get_parent_nodes`, the document-order prefix of the traversal up to
    and including the element.
- **Locations** (`location.dfy`, module `Location`). `localize_difference`
  renders that prefix as `<a>, <b>, <c>`. A parser of that format proves
  that the rendering can be read back.
- **Set differences** (`differences.dfy`, module `Differences`).
  `retrieve_differences` gives the two one-sided set differences of two
  lists.
- **Attribute groups** (`attributes.dfy`, module `Attributes`).
  `get_attributes` groups the attribute maps of the attributed elements by
  tag, in order of first encounter. The defaultdict is modelled as an
  ordered list of `(tag, maps)` groups.
- **The test case** (`compare_xml.dfy`, module `CompareXml`):
  - `get_document`;
  - the precondition gate on form id and contract-number text;
  - the projections `get_tags` and `get_texts`;
  - the three report loops, which locate each difference and stop at the
    first exception;
  - the tag, text and attribute tests;
  - the suite run: the gate, then the three tests in unittest's order.
- **A worked example** (`scenarios.dfy`, module `Scenarios`). Two forms
  hold the same two elements with their siblings in the opposite order.
  The tag and text tests log nothing for them, but the attribute test
  pairs the groups by position and reports all four elements. One of the
  reported locations names a sibling that is not an ancestor.

Logging is modelled by records `(message, element, location)`. Each report
returns the records it would log, in order, and the exception that ended
it, if any. Python exceptions are values of `Wrappers.Exception`.

Two behaviours of the code are easy to misread:

- **Locations.** `get_parent_nodes` is named as if it returned an
  element's ancestors. It returns every element before it in document
  order, earlier siblings' subtrees included (`Parser.ParentNodesNotAChain`,
  `Scenarios.SwappedSiblingsAttributes`).
- **Missing texts.** `get_texts` keeps `None` for elements without text, so
  `None` can be a difference. It is then searched for as the string
  `"None"` (`CompareXml.TextRunMissingText`).

## Model

| member | source | states |
|---|---|---|
| `Tree.AttrMapValue` | Parser.py:34 | the value the attribute dict holds for a name is one given with that name in the element's attributes |
| `Tree.Get` | Parser.py:33-36 | an element has a value for attribute `name` exactly when `name` is one of its attribute names, and that value is one paired with `name` in its attributes |
| `Differences.Without` | CompareXml.py:128 | the values kept are exactly those of the first list that are not in the second |
| `Differences.Dedup` | CompareXml.py:126-129 | turning a list into a set and back keeps the same values, each listed once |
| `Differences.DedupOrder` | CompareXml.py:129 | the chosen listing order of a set: values appear in the order of their first occurrence in the input list |
| `Differences.RetrieveDifferences` | CompareXml.py:124-134 | always two lists: `set(prod) - set(test)` and `set(test) - set(prod)`, each without repeats, disjoint from each other, and with the values the two inputs share making up the rest of `set(prod)` |
| `Differences.DifferencesSwap` | CompareXml.py:124-134 | swapping the two input lists swaps the two differences |
| `Differences.DifferencesOfSelf` | CompareXml.py:124-134 | a list compared with itself gives two empty differences |
| `Differences.DifferencesDependOnSets` | CompareXml.py:126-127 | only the sets of values matter: inputs with the same values give differences with the same values |
| `Attributes.Lookup` | CompareXml.py:103 | `attributes[tag]` of the defaultdict: the maps under `tag`, or the empty list when `tag` is not a key; `LookupAppend` and `GroupsLookup` speak about it |
| `Attributes.Append` | CompareXml.py:103 | `attributes[tag].append(a)`: extends the group of `tag`, or adds a new group at the end; `KeysAppend`, `LookupAppend` and `SizeAppend` speak about it |
| `Attributes.Groups` | CompareXml.py:100-103 | the defaultdict after the loop: each element with a non-empty attribute map appended under its tag, in order; `GroupsKeys`, `GroupsLookup`, `GroupsSize`, `GroupsItems` and `GroupsNonEmpty` speak about it |
| `Attributes.KeyIndex` | CompareXml.py:103 | the position of a tag's group, absent exactly when the tag has no group yet; it is the first group with that tag |
| `Attributes.KeysAppend` | CompareXml.py:103 | `attributes[tag].append(...)` adds `tag` as the last key when it is new and leaves the keys alone otherwise |
| `Attributes.LookupAppend` | CompareXml.py:103 | the append extends the list under `tag` by the one map and leaves every other tag's list unchanged |
| `Attributes.SizeAppend` | CompareXml.py:103 | each append adds exactly one map in total |
| `Attributes.GetAttributes` | CompareXml.py:99-105 | the loop builds the groups of its elements (`Groups`), about which the lemmas below speak |
| `Attributes.GroupsKeys` | CompareXml.py:99-105 | the keys are the tags of the attributed elements, each once, in order of first encounter |
| `Attributes.GroupsLookup` | CompareXml.py:101-103 | the list under a tag holds the attribute maps of exactly the attributed elements with that tag, in document order |
| `Attributes.GroupsSize` | CompareXml.py:99-105 | the group sizes sum to the number of elements with a non-empty attribute map |
| `Attributes.GroupsItems` | CompareXml.py:99-105 | keys are distinct, a tag is a key exactly when some attributed element has it, and each item pairs a key with that tag's maps |
| `Attributes.GroupsNonEmpty` | CompareXml.py:102-103 | no group is empty: a tag without an attributed element has no key |
| `Documents.Document.constructor` | Document.py:7-10 | the three getters return the three constructor arguments |
| `Documents.Document.GetFormId` | Document.py:13-14 | returns the stored form id and only reads the object |
| `Documents.Document.SetFormId` | Document.py:16-17 | afterwards the form id is the new one; contract number and form are unchanged, and only that field may change |
| `Documents.Document.GetContractNumber` | Document.py:19-20 | returns the stored contract-number element and only reads the object |
| `Documents.Document.SetContractNumber` | Document.py:22-23 | afterwards the contract number is the new one; form id and form are unchanged |
| `Documents.Document.GetForm` | Document.py:25-26 | returns the stored form and only reads the object |
| `Documents.Document.SetForm` | Document.py:28-29 | afterwards the form is the new one; form id and contract number are unchanged |
| `Parser.GetChildren` | Parser.py:13-14 | `list(tree.iter())`: the tree itself, then each child's traversal in child order (pre-order); `GetChildrenLength`, `ChildBlock` and `DescendantsSmaller` speak about it |
| `Parser.GetChildrenLength` | Parser.py:13-14 | the traversal lists as many elements as the tree has |
| `Parser.ForestChildrenAppend` | Parser.py:13-14 | the traversal of consecutive subtrees is the concatenation of their traversals |
| `Parser.ChildBlock` | Parser.py:13-14 | each child's traversal appears contiguously in its parent's, after the parent and the earlier children's subtrees |
| `Parser.MembersNoLarger` | Parser.py:13-14 | every element of a traversal is a subtree no larger than the tree |
| `Parser.DescendantsSmaller` | Parser.py:13-14 | everything after the first element is a proper descendant, so the root never appears again |
| `Parser.FirstMatch` | Parser.py:20-21 | the first position from `lo` whose element matches, or none exactly when nothing from `lo` matches |
| `Parser.FindTag` | Parser.py:19-21 | the first element in pre-order, the root included, whose tag is `name`; None exactly when there is none |
| `Parser.FindDescendant` | Parser.py:23-36 | the first proper descendant that matches a query; never the tree itself; None exactly when no descendant matches |
| `Parser.FindDescendantAt` | Parser.py:23-36 | the search returns the element at the first matching position after the root |
| `Parser.FindTagByName` | Parser.py:23-26 | the first proper descendant with that tag, in document order; None exactly when there is none |
| `Parser.FindTagByText` | Parser.py:28-31 | the first proper descendant whose text contains the string; None exactly when there is none |
| `Parser.FindTagByAttrib` | Parser.py:33-36 | the first proper descendant with that tag whose attribute `a` equals `v`; None exactly when there is none |
| `Parser.IndexOf` | Parser.py:40 | `list.index`: the first position of the element, absent exactly when the element is not in the list |
| `Parser.GetParentNodes` | Parser.py:38-44 | ValueError unless the element is in the traversal (so also for None); otherwise a non-empty prefix of the traversal that starts with the tree and ends at the first occurrence of the element |
| `Parser.ParentNodesAt` | Parser.py:38-44 | with unique ids, the result for the k-th element is the first k+1 elements of the traversal |
| `Parser.ParentNodesNotAChain` | Parser.py:38-44 | for `<form><a/><b/></form>` the result for `b` is `[form, a, b]`, which is not a parent/child chain |
| `Location.Wrapped` | CompareXml.py:74 | each tag as `'<' + tag + '>'`, in order |
| `Location.Join` | CompareXml.py:76 | `', '.join(parts)`: the parts with `", "` between consecutive ones |
| `Location.Render` | CompareXml.py:72-76 | the joined wrapped tags; `RenderCons`, `RenderEnds` and `ParseRender` speak about it |
| `Location.RenderCons` | CompareXml.py:74-76 | a rendering of two or more tags is the first tag wrapped, `", "`, then the rendering of the rest |
| `Location.RenderEnds` | CompareXml.py:72-76 | the rendering starts with the first tag wrapped and ends with the last |
| `Location.ParseRender` | CompareXml.py:72-76 | for tags without `>`, parsing the rendering gives back the tags (a round trip) |
| `Location.LocalizeDifference` | CompareXml.py:70-77 | ValueError unless the element is in the form's traversal; otherwise it starts with `<root tag>`, ends with `<element tag>`, and reads back as the tags of `get_parent_nodes` |
| `Location.LocalizeAt` | CompareXml.py:70-77 | with unique ids, the location of the k-th element renders the tags of the first k+1 elements of the traversal |
| `CompareXml.GetDocument` | CompareXml.py:30-31 | the document inserted `index`-th, negative indices counting from the end; IndexError outside the list |
| `CompareXml.GetTags` | CompareXml.py:33-37 | as long as its input, with element i's tag at position i |
| `CompareXml.GetTexts` | CompareXml.py:39-43 | as long as its input, with element i's text (None where it has none) at position i |
| `CompareXml.CompareFormId` | CompareXml.py:45-52 | IndexError with fewer than two documents; otherwise whether the first two form ids are equal |
| `CompareXml.CompareContractNumber` | CompareXml.py:54-61 | IndexError with no document; AttributeError when document 0's contract number is missing, since its `.text` is read before document 1 is fetched; IndexError with a single document that has a contract number; AttributeError when document 1's is missing; otherwise whether the two contract-number texts are equal |
| `CompareXml.CheckPreconditions` | CompareXml.py:63-68 | passes exactly when the form ids and then the contract-number texts agree; AssertionError on different form ids, without looking at the contract numbers, and AssertionError on different contract-number texts |
| `CompareXml.Format` | Parser.py:29 | `'{}'.format(v)` of a text value: the text itself, or `"None"` for an element without text |
| `CompareXml.Find` | CompareXml.py:81-95 | the search each report makes: by name for a tag, by the formatted text for a text, and by the first attribute of the first map for a group (IndexError when that map or group is empty) |
| `CompareXml.Locate` | CompareXml.py:79-97 | a record exactly when the search finds an element, which is a proper descendant; its location is `localize_difference` of that element and runs from the root's tag to its own; otherwise ValueError (IndexError for an empty attribute group) |
| `CompareXml.Collect` | CompareXml.py:80-83 | the records of the steps before the first exception, in order, then that exception; every step's record when none raises |
| `CompareXml.Steps` | CompareXml.py:80-82 | locating each subject in turn, in the order of the differences |
| `CompareXml.Report` | CompareXml.py:80-89 | a report loop: `Collect` of the steps; `TagReportRunsThrough`, `TagReportSound`, `TextReportRunsThrough` and `TextReportSound` speak about it |
| `CompareXml.CollectStopsAtFailure` | CompareXml.py:80-83 | once a step has raised, later steps change nothing |
| `CompareXml.ReportTagDifferences` | CompareXml.py:79-83 | the loop logs one record per tag, in order, until a tag cannot be located |
| `CompareXml.ReportTextDifferences` | CompareXml.py:85-89 | the loop logs one record per text, in order, until a text cannot be located |
| `CompareXml.ReportAttributeDifferences` | CompareXml.py:91-97 | locates a group by the first attribute of its first map |
| `CompareXml.TagLocated` | CompareXml.py:81-82 | a tag is located exactly when a proper descendant has it; otherwise ValueError |
| `CompareXml.TagReportRunsThrough` | CompareXml.py:79-83 | a tag report ends without exception exactly when every tag is a proper descendant's tag; its only exception is ValueError |
| `CompareXml.TagReportSound` | CompareXml.py:79-83 | every record carries the report's message and names a proper descendant whose tag is one of those given |
| `CompareXml.Then` | CompareXml.py:148-149 | the second report runs only if the first did not raise; its records follow the first's |
| `CompareXml.ThenRecords` | CompareXml.py:147-149 | the records of two reports run in turn come from one or the other |
| `CompareXml.TagRun` | CompareXml.py:136-151 | the tag test: report the test-only tags in the test form, then (unless that raised) the production-only tags in the production form; `NeverReportedClean`, `RunsOfSameForm`, `TagRecordsSound` and `TagRunRaises` speak about it |
| `CompareXml.TextRun` | CompareXml.py:153-167 | the text test, the same with texts; `NeverReportedClean`, `RunsOfSameForm`, `TextRecordsSound` and `TextRunMissingText` speak about it |
| `CompareXml.NeverReportedClean` | CompareXml.py:145-151 | `if diff:` always holds, so the tag and text tests never log "No differences" |
| `CompareXml.RunsOfSameForm` | CompareXml.py:136-167 | a form compared with itself gives no tag or text records and no exception |
| `CompareXml.TagRecordsSound` | CompareXml.py:136-151 | every record names an element below its form's root whose tag the other form lacks; test -> prod records come from the test form, prod -> test from production |
| `CompareXml.TagRunRaises` | CompareXml.py:136-151 | the tag test raises ValueError exactly when a form's root tag is missing from the other form and does not recur inside its own form |
| `CompareXml.OnlyRootEscapes` | CompareXml.py:145-149 | of the tags one form has and the other lacks, only the root's tag can be missing among the proper descendants |
| `CompareXml.TextLocated` | CompareXml.py:87-88 | a text is located exactly when some proper descendant's text contains its rendering; otherwise ValueError |
| `CompareXml.TextReportRunsThrough` | CompareXml.py:85-89 | a text report ends without exception exactly when every text, as `str.format` renders it, is found; its only exception is ValueError |
| `CompareXml.TextReportSound` | CompareXml.py:85-89 | every record names a proper descendant whose text contains the rendering of one of the values given |
| `CompareXml.TextRecordsSound` | CompareXml.py:153-167 | every record names an element below its form's root whose text contains a text value the other form lacks |
| `CompareXml.TextRunMissingText` | CompareXml.py:153-167 | an element without text, only in the test form, is searched for as "None"; when no text contains that, the test raises ValueError before any production record |
| `CompareXml.GroupEqual` | CompareXml.py:179 | `assertEqual` on two `(tag, list of attribute maps)` tuples: the tags agree, the lists have the same length, and the maps at each position are equal as dicts (an lxml attribute map compares as a dict, so attribute order is ignored) |
| `CompareXml.LocatePair` | CompareXml.py:182-183 | one differing pair is located test group first, in the test form, then production group, in the production form |
| `CompareXml.LocatedPairs` | CompareXml.py:177 | zip yields as many pairs as the shorter list of groups has |
| `CompareXml.LocatedPairsPositional` | CompareXml.py:177 | zip pairs by position: pair i locates the i-th test group and the i-th production group, whatever their tags |
| `CompareXml.PairStep` | CompareXml.py:178-183 | one pass of the loop body: an equal pair changes nothing; otherwise the flag clears and the test group's record, then the production group's, are logged, stopping at an exception |
| `CompareXml.CompareGroups` | CompareXml.py:177-183 | the loop after its first `n` pairs, one `PairStep` per pair; `CompareGroupsSuccess`, `CompareEqualGroups` and `CompareGroupsStops` speak about it |
| `CompareXml.CompareGroupsSuccess` | CompareXml.py:176-185 | without an exception, `success` stays true exactly when every compared pair is equal |
| `CompareXml.CompareEqualGroups` | CompareXml.py:176-183 | when every compared pair is equal, nothing is logged and nothing raised |
| `CompareXml.CompareGroupsStops` | CompareXml.py:177-183 | after an exception, later pairs are not compared |
| `CompareXml.AttrRun` | CompareXml.py:169-185 | the attribute test: `CompareGroups` over the pairs zip yields, with "No differences" logged when the flag is still true and nothing raised; `AttrRunComparesPairsOnly`, `AttrRunOfSameForm` and `AttrRunClean` speak about it |
| `CompareXml.AttrRunComparesPairsOnly` | CompareXml.py:169-185 | when the paired groups agree, the attribute test is clean however many unpaired groups one form has |
| `CompareXml.AttrRunOfSameForm` | CompareXml.py:169-185 | a form compared with itself logs "No differences between attributes" and nothing else |
| `CompareXml.AttrRunClean` | CompareXml.py:176-185 | without an exception, "No differences" is logged exactly when every pair zip produced is equal |
| `CompareXml.Forms` | CompareXml.py:139-140 | the forms of the first two documents, or IndexError with fewer than two |
| `CompareXml.TestTagDifferences` | CompareXml.py:136-151 | IndexError with fewer than two documents; otherwise the run the tag test specification gives for the two forms |
| `CompareXml.TestTextDifferences` | CompareXml.py:153-167 | IndexError with fewer than two documents; otherwise the run the text test specification gives for the two forms |
| `CompareXml.ComparePair` | CompareXml.py:178-183 | one pass of the zip loop: an equal pair changes nothing; otherwise the flag clears, the test group is located and then the production group, stopping at an exception |
| `CompareXml.CompareAttributeGroups` | CompareXml.py:176-183 | the loop compares the i-th production group with the i-th test group for the pairs zip yields and stops at the first exception |
| `CompareXml.TestAttributeDifferences` | CompareXml.py:169-185 | IndexError with fewer than two documents; otherwise the run the attribute test specification gives for the two forms |
| `CompareXml.RunSuite` | CompareXml.py:107-122 | the suite runs the three tests only when `check_preconditions` passes, and otherwise none |
| `Scenarios.Flattenings` | Parser.py:13-14 | the traversals of the two example forms |
| `Scenarios.SwappedSiblingsTagsAndTexts` | CompareXml.py:136-167 | swapping two siblings leaves the tag and text tests silent |
| `Scenarios.SwappedGroups` | CompareXml.py:99-105 | the groups of the two example forms come in opposite order |
| `Scenarios.SwappedSearches` | Parser.py:33-36 | each example element is found by its own attribute |
| `Scenarios.SwappedLocalized` | CompareXml.py:70-77 | each example location is the document-order prefix up to the element |
| `Scenarios.SwappedSiblingsAttributes` | CompareXml.py:169-185 | for the same two forms the attribute test reports all four elements; the third location, `<form>, <b>, <a>`, names an earlier sibling as if it were an ancestor |
| `Scenarios.SwappedTally` | CompareXml.py:176-185 | both positional pairs mismatch, so all four located groups are logged, test before production in each pair |

## Left out

- Parsing files (`parse_file`, comment stripping) and the directory loop of
  `setUpClass` with its `ParseError` handling are I/O and lxml. The model
  takes already built trees and an already filled list of documents.
  `RunSuite` starts from that list, with the gate that ends `setUpClass`.
- `setUpClass` also extracts the form id and contract number with
  `find_tag` and `get_attribute(form).get('id')`. Only `find_tag` and the
  attribute lookup (`Tree.Get`) are modelled, not the extraction itself.
- `get_attribute` is field access (`element.attrib`). It has no member of
  its own.
- Logging (configuration, handlers, every `logger` call) is replaced by
  the records the reports return.
- The unittest machinery is not modelled: the test case class,
  `assertEqual` raising `AssertionError`, and `unittest.main`. The
  assertions are boolean or `Result` values. Tests run in unittest's
  alphabetical order of method names: attribute, then tag, then text.
- The `try/except ImportError` around the imports is environment plumbing.
- XPath string building is modelled as plain equality and substring tests
  on an element's own text. Four quirks are not modelled:
  - `find_tag_by_attrib` splices the value in unquoted. A non-numeric
    value such as `foo` is then read as a child-element path, so
    `.//a[@x=foo]` finds nothing and the source raises ValueError; a
    value with spaces makes the query fail to parse. The model finds the
    element in both cases, so `AttrRun`'s records agree with the source
    only when each located group's first attribute value is numeric;
  - a `"` in a searched text breaks the query;
  - the string value of `text()` can come from text other than the
    element's own;
  - a namespaced tag or attribute name (`{uri}local`) spliced into the
    attribute query makes the query fail instead of finding no element.
- `diff[1][0].keys()[0]` and `.values()[0]` are modelled as the first
  `(name, value)` pair of the group's first attribute map.
- The class-level `documents` dict is modelled as a sequence in insertion
  order. The throw-away `setup` instance is not modelled.
- Differences.RetrieveDifferences: Python lists a set in an order it does
  not specify. The model fixes first-occurrence order. Only the values, not
  the order, are the source's promise (`DifferencesDependOnSets`).
- `compare_xml.py` is an earlier near-duplicate of the test case and is not
  part of this model.
- The commented-out `view_tree_levels` and `print_level` are dead code.
- Identity of lxml elements is modelled by the `id` field. The results
  that depend on `list.index` finding the right element assume unique ids
  (`UniqueIds`).
