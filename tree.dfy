/** The element trees the comparison receives, reduced to what it reads of them. */
module Tree {
  import opened Wrappers

  /** An element's attributes in document order, as (name, value) pairs. */
  type Attrs = seq<(string, string)>

  /** An element. `id` stands for the identity of the element object: two
      elements of one tree are the same object exactly when they are equal. */
  datatype Node = Node(id: nat, tag: string, text: Option<string>, attrib: Attrs, children: seq<Node>)

  /** Number of elements in the tree rooted at `t`. */
  function NodeCount(t: Node): nat
    decreases t, 1
  {
    1 + ForestCount(t.children)
  }

  /** Number of elements in a sequence of trees. */
  function ForestCount(ts: seq<Node>): nat
    decreases ts, 0
  {
    if ts == [] then 0 else NodeCount(ts[0]) + ForestCount(ts[1..])
  }

  /** The attributes as the dict they compare as: a later pair for a name
      replaces an earlier one. */
  function AttrMap(a: Attrs): map<string, string>
  {
    if a == [] then map[] else AttrMap(a[..|a| - 1])[a[|a| - 1].0 := a[|a| - 1].1]
  }

  /** The names that occur in `a`. */
  ghost function Names(a: Attrs): set<string>
  {
    set i | 0 <= i < |a| :: a[i].0
  }

  /** Every name given in the pairs is a key of the dict, and nothing else is. */
  lemma {:induction false} AttrMapKeys(a: Attrs)
    ensures AttrMap(a).Keys == Names(a)
  {
    if a != [] {
      var n := |a| - 1;
      AttrMapKeys(a[..n]);
      assert Names(a) == Names(a[..n]) + {a[n].0} by {
        forall x | x in Names(a) ensures x in Names(a[..n]) + {a[n].0} {
          var i :| 0 <= i < |a| && a[i].0 == x;
          if i < n { assert a[..n][i].0 == x; }
        }
        forall x | x in Names(a[..n]) ensures x in Names(a) {
          var i :| 0 <= i < n && a[..n][i].0 == x;
          assert a[i].0 == x;
        }
      }
    }
  }

  /** The value the dict holds for a name is one given with that name in the pairs. */
  lemma {:induction false} AttrMapValue(a: Attrs, name: string)
    requires name in AttrMap(a)
    ensures (name, AttrMap(a)[name]) in a
  {
    var n := |a| - 1;
    if a[n].0 != name {
      AttrMapValue(a[..n], name);
      assert (name, AttrMap(a[..n])[name]) in a[..n];
    }
  }

  /** attrib.get(name): the value of attribute `name`, if the element has one. */
  function Get(a: Attrs, name: string): (r: Option<string>)
    ensures r.Some? <==> name in Names(a)
    ensures r.Some? ==> (name, r.value) in a
  {
    AttrMapKeys(a);
    if name in AttrMap(a) then
      AttrMapValue(a, name);
      Some(AttrMap(a)[name])
    else None
  }

  /** The string value XPath gives an element's text: its own text, or "" when it has none. */
  function TextValue(n: Node): string
  {
    if n.text.Some? then n.text.value else ""
  }

  /** `sub` occurs in `s` starting at position `i`. */
  predicate OccursAt(s: string, sub: string, i: int)
  {
    0 <= i && i + |sub| <= |s| && s[i..i + |sub|] == sub
  }

  /** XPath's contains(s, sub): `sub` is a substring of `s`. */
  predicate Contains(s: string, sub: string)
  {
    exists i | 0 <= i <= |s| - |sub| :: OccursAt(s, sub, i)
  }

  /** The tag of each element, in order. */
  function Tags(es: seq<Node>): seq<string>
  {
    seq(|es|, i requires 0 <= i < |es| => es[i].tag)
  }

  /** The text of each element, in order; None where an element has no text. */
  function Texts(es: seq<Node>): seq<Option<string>>
  {
    seq(|es|, i requires 0 <= i < |es| => es[i].text)
  }
}
