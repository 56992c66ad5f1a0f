/** The element-tree helpers of the Parser class: the document-order
    traversal, the first-match searches, and the "parent nodes" of an
    element. Parsing a file is not part of this model. */
module Parser {
  import opened Wrappers
  import opened Tree

  /** get_children(tree): the elements of `t` in document order (pre-order), `t` first. */
  function GetChildren(t: Node): seq<Node>
    decreases t, 1
  {
    [t] + ForestChildren(t.children)
  }

  /** The traversals of a sequence of sibling trees, one after the other. */
  function ForestChildren(ts: seq<Node>): seq<Node>
    decreases ts, 0
  {
    if ts == [] then [] else GetChildren(ts[0]) + ForestChildren(ts[1..])
  }

  /** The traversal lists every element exactly as often as the tree holds it. */
  lemma {:induction false} GetChildrenLength(t: Node)
    ensures |GetChildren(t)| == NodeCount(t)
    decreases t, 1
  {
    ForestChildrenLength(t.children);
  }

  lemma {:induction false} ForestChildrenLength(ts: seq<Node>)
    ensures |ForestChildren(ts)| == ForestCount(ts)
    decreases ts, 0
  {
    if ts != [] {
      GetChildrenLength(ts[0]);
      ForestChildrenLength(ts[1..]);
    }
  }

  lemma {:induction false} ForestChildrenAppend(a: seq<Node>, b: seq<Node>)
    ensures ForestChildren(a + b) == ForestChildren(a) + ForestChildren(b)
    decreases |a|
  {
    if a == [] {
      assert a + b == b;
    } else {
      assert (a + b)[1..] == a[1..] + b;
      ForestChildrenAppend(a[1..], b);
    }
  }

  /** The traversal of child `c` appears as one contiguous block of its
      parent's traversal, right after the parent and the blocks of the
      children before it. */
  lemma ChildBlock(t: Node, c: nat)
    requires c < |t.children|
    ensures var lo := 1 + ForestCount(t.children[..c]);
            lo + NodeCount(t.children[c]) <= |GetChildren(t)| &&
            GetChildren(t)[lo..lo + NodeCount(t.children[c])] == GetChildren(t.children[c])
  {
    var ts := t.children;
    assert ts == ts[..c] + [ts[c]] + ts[c + 1..];
    ForestChildrenAppend(ts[..c] + [ts[c]], ts[c + 1..]);
    ForestChildrenAppend(ts[..c], [ts[c]]);
    assert ForestChildren([ts[c]]) == GetChildren(ts[c]) by {
      assert [ts[c]][1..] == [];
    }
    ForestChildrenLength(ts[..c]);
    GetChildrenLength(ts[c]);
    GetChildrenLength(t);
  }

  lemma {:induction false} MembersNoLarger(t: Node)
    ensures forall n | n in GetChildren(t) :: NodeCount(n) <= NodeCount(t)
    decreases t, 1
  {
    ForestMembersNoLarger(t.children);
  }

  lemma {:induction false} ForestMembersNoLarger(ts: seq<Node>)
    ensures forall n | n in ForestChildren(ts) :: NodeCount(n) <= ForestCount(ts)
    decreases ts, 0
  {
    if ts != [] {
      MembersNoLarger(ts[0]);
      ForestMembersNoLarger(ts[1..]);
    }
  }

  /** Every element after the first of a traversal is strictly smaller than
      the tree, so a tree never occurs among its own proper descendants. */
  lemma DescendantsSmaller(t: Node)
    ensures forall k | 1 <= k < |GetChildren(t)| :: NodeCount(GetChildren(t)[k]) < NodeCount(t)
    ensures t !in GetChildren(t)[1..]
  {
    var flat := GetChildren(t);
    ForestMembersNoLarger(t.children);
    assert flat[1..] == ForestChildren(t.children);
    forall k | 1 <= k < |flat| ensures NodeCount(flat[k]) < NodeCount(t) {
      assert flat[k] in ForestChildren(t.children);
    }
  }

  /** Distinct positions of the traversal hold distinct element objects. */
  ghost predicate UniqueIds(t: Node)
  {
    forall i, j | 0 <= i < j < |GetChildren(t)| :: GetChildren(t)[i].id != GetChildren(t)[j].id
  }

  /** What the Parser's searches select an element by. */
  datatype Query =
    | ByName(name: string)                                    // iter(name), findall('.//name')
    | ByText(fragment: string)                                // .//*[contains(text(), "fragment")]
    | ByAttrib(tag: string, attribute: string, value: string) // .//tag[@attribute=value]

  predicate Matches(q: Query, n: Node)
  {
    match q
    case ByName(name) => n.tag == name
    case ByText(fragment) => Contains(TextValue(n), fragment)
    case ByAttrib(tag, attribute, value) => n.tag == tag && Get(n.attrib, attribute) == Some(value)
  }

  /** `k` is the first position at or after `lo` whose element matches `q`. */
  predicate FirstFrom(s: seq<Node>, q: Query, lo: nat, k: nat)
  {
    lo <= k < |s| && Matches(q, s[k]) && forall j | lo <= j < k :: !Matches(q, s[j])
  }

  /** The position of the first element at or after `lo` that matches `q`:
      the early return out of a for loop over the query's results. */
  function FirstMatch(s: seq<Node>, q: Query, lo: nat): (r: Option<nat>)
    ensures r.Some? ==> FirstFrom(s, q, lo, r.value)
    ensures r.None? <==> forall j | lo <= j < |s| :: !Matches(q, s[j])
    decreases |s| - lo
  {
    if lo >= |s| then None
    else if Matches(q, s[lo]) then Some(lo)
    else FirstMatch(s, q, lo + 1)
  }

  /** find_tag(root, name): the first element of the traversal, `root`
      itself included, whose tag is `name`; None when there is none. */
  function FindTag(root: Node, name: string): (r: Option<Node>)
    ensures r.None? <==> forall n | n in GetChildren(root) :: n.tag != name
    ensures r.Some? ==> r.value in GetChildren(root) && r.value.tag == name
    ensures r.Some? ==> exists k: nat :: FirstFrom(GetChildren(root), ByName(name), 0, k) && GetChildren(root)[k] == r.value
  {
    var flat := GetChildren(root);
    match FirstMatch(flat, ByName(name), 0)
    case None => None
    case Some(k) => Some(flat[k])
  }

  /** The first proper descendant of `tree` in document order that matches
      `q`: the ".//" step of XPath 1.0 (section 2.5) never selects the
      context element itself. */
  function FindDescendant(tree: Node, q: Query): (r: Option<Node>)
    ensures r.None? <==> forall k | 1 <= k < |GetChildren(tree)| :: !Matches(q, GetChildren(tree)[k])
    ensures r.Some? ==> r.value in GetChildren(tree)[1..] && r.value != tree && Matches(q, r.value)
    ensures r.Some? ==> exists k: nat :: FirstFrom(GetChildren(tree), q, 1, k) && GetChildren(tree)[k] == r.value
  {
    var flat := GetChildren(tree);
    match FirstMatch(flat, q, 1)
    case None => None
    case Some(k) =>
      DescendantsSmaller(tree);
      assert flat[k] in flat[1..];
      Some(flat[k])
  }

  /** The proper descendant the search returns is the one at the first
      matching position. */
  lemma FindDescendantAt(tree: Node, q: Query, k: nat)
    requires FirstFrom(GetChildren(tree), q, 1, k)
    ensures FindDescendant(tree, q) == Some(GetChildren(tree)[k])
  {
    var j := FirstMatch(GetChildren(tree), q, 1).value;
    assert FirstFrom(GetChildren(tree), q, 1, j);
  }

  /** find_tag_by_name(tree, tag): the first proper descendant whose tag is `tag`. */
  function FindTagByName(tree: Node, tag: string): (r: Option<Node>)
    ensures r.None? ==> forall k | 1 <= k < |GetChildren(tree)| :: GetChildren(tree)[k].tag != tag
    ensures (forall k | 1 <= k < |GetChildren(tree)| :: GetChildren(tree)[k].tag != tag) ==> r.None?
    ensures r.Some? ==> r.value in GetChildren(tree)[1..] && r.value != tree && r.value.tag == tag
    ensures r.Some? ==> exists k: nat :: FirstFrom(GetChildren(tree), ByName(tag), 1, k) && GetChildren(tree)[k] == r.value
  {
    var flat := GetChildren(tree);
    assert forall k | 1 <= k < |flat| :: Matches(ByName(tag), flat[k]) == (flat[k].tag == tag);
    FindDescendant(tree, ByName(tag))
  }

  /** find_tag_by_text(tree, s): the first proper descendant whose text
      contains `s` (XPath 1.0 section 4.2, contains). */
  function FindTagByText(tree: Node, s: string): (r: Option<Node>)
    ensures r.None? ==> forall k | 1 <= k < |GetChildren(tree)| :: !Contains(TextValue(GetChildren(tree)[k]), s)
    ensures (forall k | 1 <= k < |GetChildren(tree)| :: !Contains(TextValue(GetChildren(tree)[k]), s)) ==> r.None?
    ensures r.Some? ==> r.value in GetChildren(tree)[1..] && r.value != tree && Contains(TextValue(r.value), s)
    ensures r.Some? ==> exists k: nat :: FirstFrom(GetChildren(tree), ByText(s), 1, k) && GetChildren(tree)[k] == r.value
  {
    var flat := GetChildren(tree);
    assert forall k | 1 <= k < |flat| :: Matches(ByText(s), flat[k]) == Contains(TextValue(flat[k]), s);
    FindDescendant(tree, ByText(s))
  }

  /** find_tag_by_attrib(tree, tag, a, v): the first proper descendant with
      tag `tag` whose attribute `a` has the value `v`. */
  function FindTagByAttrib(tree: Node, tag: string, a: string, v: string): (r: Option<Node>)
    ensures r.None? ==> forall k | 1 <= k < |GetChildren(tree)| ::
      !(GetChildren(tree)[k].tag == tag && Get(GetChildren(tree)[k].attrib, a) == Some(v))
    ensures (forall k | 1 <= k < |GetChildren(tree)| ::
      !(GetChildren(tree)[k].tag == tag && Get(GetChildren(tree)[k].attrib, a) == Some(v))) ==> r.None?
    ensures r.Some? ==> r.value in GetChildren(tree)[1..] && r.value != tree
    ensures r.Some? ==> r.value.tag == tag && Get(r.value.attrib, a) == Some(v)
    ensures r.Some? ==> exists k: nat :: FirstFrom(GetChildren(tree), ByAttrib(tag, a, v), 1, k) && GetChildren(tree)[k] == r.value
  {
    var flat := GetChildren(tree);
    assert forall k | 1 <= k < |flat| ::
      Matches(ByAttrib(tag, a, v), flat[k]) == (flat[k].tag == tag && Get(flat[k].attrib, a) == Some(v));
    FindDescendant(tree, ByAttrib(tag, a, v))
  }

  /** list.index(x): the first position of `x` in `s`, or None where Python raises. */
  function IndexOf(s: seq<Node>, x: Node): (r: Option<nat>)
    ensures r.None? <==> x !in s
    ensures r.Some? ==> r.value < |s| && s[r.value] == x && x !in s[..r.value]
  {
    if s == [] then None
    else if s[0] == x then Some(0)
    else match IndexOf(s[1..], x)
      case None => None
      case Some(k) =>
        assert s[..k + 1] == [s[0]] + s[1..][..k];
        Some(k + 1)
  }

  /** get_parent_nodes(tree, node): the traversal of `tree` cut right after
      the first occurrence of `node`. This is a document-order prefix, not
      an ancestor chain. A node that is not in the traversal (None among
      them) makes list.index raise ValueError. */
  function GetParentNodes(tree: Node, node: Option<Node>): (r: Result<seq<Node>>)
    ensures r.Ok? <==> node.Some? && node.value in GetChildren(tree)
    ensures r.Err? ==> r.error == ValueError
    ensures r.Ok? ==> var p := r.value;
      1 <= |p| <= |GetChildren(tree)| && p == GetChildren(tree)[..|p|] &&
      p[0] == tree && p[|p| - 1] == node.value && node.value !in p[..|p| - 1]
  {
    var flat := GetChildren(tree);
    GetChildrenLength(tree);
    match node
    case None => Err(ValueError)
    case Some(n) =>
      match IndexOf(flat, n)
      case None => Err(ValueError)
      case Some(k) =>
        assert flat[..k + 1][..k] == flat[..k];
        Ok(flat[..k + 1])
  }

  /** With element identity, the parent nodes of the element at position
      `k` are exactly the first `k + 1` elements of the traversal. */
  lemma ParentNodesAt(tree: Node, k: nat)
    requires UniqueIds(tree)
    requires k < |GetChildren(tree)|
    ensures GetParentNodes(tree, Some(GetChildren(tree)[k])) == Ok(GetChildren(tree)[..k + 1])
  {
    var flat := GetChildren(tree);
    var i := IndexOf(flat, flat[k]).value;
    assert flat[i].id == flat[k].id;
  }

  /** Each element of `p` is a child of the one before it. */
  predicate IsParentChain(p: seq<Node>)
  {
    forall i | 0 <= i < |p| - 1 :: p[i + 1] in p[i].children
  }

  /** The parent nodes are not in general a path from the root: in
      <form><a/><b/></form> those of <b> take in its earlier sibling <a>. */
  lemma ParentNodesNotAChain()
    ensures var a := Node(1, "a", None, [], []);
            var b := Node(2, "b", None, [], []);
            var form := Node(0, "form", None, [], [a, b]);
            GetParentNodes(form, Some(b)) == Ok([form, a, b]) && !IsParentChain([form, a, b])
  {
    var a := Node(1, "a", None, [], []);
    var b := Node(2, "b", None, [], []);
    var form := Node(0, "form", None, [], [a, b]);
    assert ForestChildren([b]) == [b];
    assert ForestChildren([a, b]) == [a, b] by {
      assert [a, b][1..] == [b];
    }
    assert GetChildren(form) == [form, a, b];
    assert IndexOf([form, a, b], b) == Some(2) by {
      assert [form, a, b][1..] == [a, b];
      assert [a, b][1..] == [b];
    }
    assert [form, a, b][..3] == [form, a, b];
    assert b !in a.children;
  }
}
