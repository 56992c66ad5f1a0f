/** get_attributes: the defaultdict(list) that groups the attribute maps of
    the elements that have attributes under their tags, keys in the order
    they are first seen. The dict is modelled as its list of items. */
module Attributes {
  import opened Wrappers
  import opened Tree
  import opened Differences

  /** One item of the dict: a tag and the attribute maps filed under it. */
  type Group = (string, seq<Attrs>)

  /** The dict's keys, in order. */
  function Keys(g: seq<Group>): seq<string>
  {
    seq(|g|, i requires 0 <= i < |g| => g[i].0)
  }

  /** The position of key `tag`, if the dict has it. */
  function KeyIndex(g: seq<Group>, tag: string): (r: Option<nat>)
    ensures r.None? <==> tag !in Keys(g)
    ensures r.Some? ==> r.value < |g| && g[r.value].0 == tag && tag !in Keys(g)[..r.value]
  {
    if g == [] then None
    else if g[0].0 == tag then
      assert Keys(g)[0] == tag;
      Some(0)
    else match KeyIndex(g[1..], tag)
      case None =>
        assert Keys(g) == [g[0].0] + Keys(g[1..]);
        None
      case Some(k) =>
        assert Keys(g)[..k + 1] == [g[0].0] + Keys(g[1..])[..k];
        assert Keys(g)[k + 1] == tag;
        Some(k + 1)
  }

  lemma KeyIndexAt(g: seq<Group>, tag: string, k: nat)
    requires k < |g| && g[k].0 == tag
    requires forall i | 0 <= i < k :: g[i].0 != tag
    ensures KeyIndex(g, tag) == Some(k)
  {
    assert Keys(g)[k] == tag;
    var j := KeyIndex(g, tag).value;
    assert forall i | 0 <= i < j :: Keys(g)[..j][i] == g[i].0;
  }

  /** attributes[tag]: the list filed under `tag`, empty when there is none. */
  function Lookup(g: seq<Group>, tag: string): seq<Attrs>
  {
    match KeyIndex(g, tag)
    case None => []
    case Some(k) => g[k].1
  }

  /** attributes[tag].append(a) */
  function Append(g: seq<Group>, tag: string, a: Attrs): seq<Group>
  {
    match KeyIndex(g, tag)
    case None => g + [(tag, [a])]
    case Some(k) => g[k := (tag, g[k].1 + [a])]
  }

  /** The dict after the loop of get_attributes has visited `es`. */
  function Groups(es: seq<Node>): seq<Group>
  {
    if es == [] then []
    else
      var g := Groups(es[..|es| - 1]);
      var e := es[|es| - 1];
      if |e.attrib| > 0 then Append(g, e.tag, e.attrib) else g
  }

  /** get_attributes(elements) */
  method GetAttributes(elements: seq<Node>) returns (attributes: seq<Group>)
    ensures attributes == Groups(elements)
  {
    attributes := [];
    for i := 0 to |elements|
      invariant attributes == Groups(elements[..i])
    {
      var child := elements[i];
      assert elements[..i + 1][..i] == elements[..i];
      if |child.attrib| > 0 {
        attributes := Append(attributes, child.tag, child.attrib);
      }
    }
    assert elements[..|elements|] == elements;
  }

  /** The elements that have at least one attribute, in order. */
  function Attributed(es: seq<Node>): seq<Node>
  {
    if es == [] then []
    else
      var e := es[|es| - 1];
      Attributed(es[..|es| - 1]) + (if |e.attrib| > 0 then [e] else [])
  }

  /** The attribute maps of the attributed elements tagged `tag`, in order. */
  function GroupOf(es: seq<Node>, tag: string): seq<Attrs>
  {
    if es == [] then []
    else
      var e := es[|es| - 1];
      GroupOf(es[..|es| - 1], tag) + (if |e.attrib| > 0 && e.tag == tag then [e.attrib] else [])
  }

  /** The number of attribute maps in the dict. */
  function Size(g: seq<Group>): nat
  {
    if g == [] then 0 else Size(g[..|g| - 1]) + |g[|g| - 1].1|
  }

  lemma {:induction false} KeysAppend(g: seq<Group>, tag: string, a: Attrs)
    ensures Keys(Append(g, tag, a)) == if tag in Keys(g) then Keys(g) else Keys(g) + [tag]
  {
  }

  lemma {:induction false} LookupAppend(g: seq<Group>, tag: string, a: Attrs, t: string)
    ensures Lookup(Append(g, tag, a), t) == Lookup(g, t) + (if t == tag then [a] else [])
  {
    var g' := Append(g, tag, a);
    KeysAppend(g, tag, a);
    assert forall i | 0 <= i < |g| :: g'[i].0 == Keys(g)[i];
    match KeyIndex(g, t)
    case None =>
      if t == tag {
        KeyIndexAt(g', t, |g|);
      }
    case Some(k) =>
      assert forall i | 0 <= i < k :: Keys(g)[..k][i] == Keys(g)[i];
      KeyIndexAt(g', t, k);
  }

  lemma {:induction false} SizeUpdate(g: seq<Group>, k: nat, x: Group)
    requires k < |g|
    ensures Size(g[k := x]) + |g[k].1| == Size(g) + |x.1|
    decreases |g|
  {
    var n := |g| - 1;
    if k < n {
      assert g[k := x][..n] == g[..n][k := x];
      SizeUpdate(g[..n], k, x);
    } else {
      assert g[k := x][..n] == g[..n];
    }
  }

  lemma SizeAppend(g: seq<Group>, tag: string, a: Attrs)
    ensures Size(Append(g, tag, a)) == Size(g) + 1
  {
    match KeyIndex(g, tag)
    case None =>
      assert (g + [(tag, [a])])[..|g|] == g;
    case Some(k) =>
      SizeUpdate(g, k, (tag, g[k].1 + [a]));
  }

  /** The keys are the tags of the attributed elements, each once, in the
      order their first attributed element appears. */
  lemma {:induction false} GroupsKeys(es: seq<Node>)
    ensures Keys(Groups(es)) == Dedup(Tags(Attributed(es)))
  {
    if es != [] {
      var n := |es| - 1;
      var e := es[n];
      assert es[..n] + [e] == es;
      GroupsKeys(es[..n]);
      var s := Tags(Attributed(es));
      if |e.attrib| > 0 {
        KeysAppend(Groups(es[..n]), e.tag, e.attrib);
        assert s[..|s| - 1] == Tags(Attributed(es[..n]));
        assert s[|s| - 1] == e.tag;
      } else {
        assert s == Tags(Attributed(es[..n]));
      }
    }
  }

  /** attributes[tag] lists the attribute maps of exactly the attributed
      elements tagged `tag`, in document order; it is empty for any other tag. */
  lemma {:induction false} GroupsLookup(es: seq<Node>, tag: string)
    ensures Lookup(Groups(es), tag) == GroupOf(es, tag)
  {
    if es != [] {
      var n := |es| - 1;
      GroupsLookup(es[..n], tag);
      if |es[n].attrib| > 0 {
        LookupAppend(Groups(es[..n]), es[n].tag, es[n].attrib, tag);
      }
    }
  }

  /** The group sizes add up to the number of attributed elements. */
  lemma {:induction false} GroupsSize(es: seq<Node>)
    ensures Size(Groups(es)) == |Attributed(es)|
  {
    if es != [] {
      var n := |es| - 1;
      GroupsSize(es[..n]);
      if |es[n].attrib| > 0 {
        SizeAppend(Groups(es[..n]), es[n].tag, es[n].attrib);
      }
    }
  }

  /** A tag is a key exactly when some element with that tag has attributes;
      keys do not repeat, and each key's list is that tag's attribute maps. */
  lemma GroupsItems(es: seq<Node>)
    ensures Distinct(Keys(Groups(es)))
    ensures forall tag :: tag in Keys(Groups(es)) <==> GroupOf(es, tag) != []
    ensures forall k | 0 <= k < |Groups(es)| :: Groups(es)[k].1 == GroupOf(es, Groups(es)[k].0)
  {
    var g := Groups(es);
    GroupsKeys(es);
    forall tag ensures tag in Keys(g) <==> GroupOf(es, tag) != [] {
      GroupsLookup(es, tag);
      GroupsNonEmpty(es);
    }
    forall k | 0 <= k < |g| ensures g[k].1 == GroupOf(es, g[k].0) {
      GroupsLookup(es, g[k].0);
      assert Keys(g)[k] == g[k].0;
      var i := KeyIndex(g, g[k].0).value;
      assert Keys(g)[i] == Keys(g)[k];
    }
  }

  lemma {:induction false} GroupsNonEmpty(es: seq<Node>)
    ensures forall k | 0 <= k < |Groups(es)| :: Groups(es)[k].1 != []
  {
    if es != [] {
      GroupsNonEmpty(es[..|es| - 1]);
    }
  }
}
