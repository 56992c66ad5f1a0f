/** localize_difference: a located element's parent nodes, rendered as
    their tags, each in angle brackets, joined by ", ". */
module Location {
  import opened Wrappers
  import opened Tree
  import opened Parser

  /** '<' + tag + '>' */
  function Wrap(tag: string): string
  {
    "<" + tag + ">"
  }

  /** The list comprehension ['<' + t + '>' for t in tags]. */
  function Wrapped(tags: seq<string>): seq<string>
  {
    seq(|tags|, i requires 0 <= i < |tags| => Wrap(tags[i]))
  }

  /** ', '.join(parts) */
  function Join(parts: seq<string>): string
  {
    if |parts| == 0 then ""
    else if |parts| == 1 then parts[0]
    else parts[0] + ", " + Join(parts[1..])
  }

  /** The rendering of a location. */
  function Render(tags: seq<string>): string
  {
    Join(Wrapped(tags))
  }

  predicate StartsWith(s: string, prefix: string)
  {
    |prefix| <= |s| && s[..|prefix|] == prefix
  }

  predicate EndsWith(s: string, suffix: string)
  {
    |suffix| <= |s| && s[|s| - |suffix|..] == suffix
  }

  /** Render(tags) is the first wrapped tag, then ", " and the rest. */
  lemma RenderCons(tags: seq<string>)
    requires |tags| >= 2
    ensures Render(tags) == Wrap(tags[0]) + ", " + Render(tags[1..])
  {
    assert Wrapped(tags)[1..] == Wrapped(tags[1..]);
  }

  /** A rendered location opens with the first tag and closes with the last. */
  lemma {:induction false} RenderEnds(tags: seq<string>)
    requires |tags| >= 1
    ensures StartsWith(Render(tags), Wrap(tags[0]))
    ensures EndsWith(Render(tags), Wrap(tags[|tags| - 1]))
    decreases |tags|
  {
    if |tags| >= 2 {
      RenderCons(tags);
      RenderEnds(tags[1..]);
      var w, rest := Wrap(tags[0]), ", " + Render(tags[1..]);
      assert (w + rest)[..|w|] == w;
      var last := Wrap(tags[|tags| - 1]);
      assert (w + rest)[|w + rest| - |last|..] == Render(tags[1..])[|Render(tags[1..])| - |last|..];
    }
  }

  /** The first position at or after `i` holding '>'. */
  function CloseAt(s: string, i: nat): (r: Option<nat>)
    ensures r.Some? ==> i <= r.value < |s| && s[r.value] == '>' && forall j | i <= j < r.value :: s[j] != '>'
    ensures r.None? ==> forall j | i <= j < |s| :: s[j] != '>'
    decreases |s| - i
  {
    if i >= |s| then None else if s[i] == '>' then Some(i) else CloseAt(s, i + 1)
  }

  lemma {:induction false} CloseAtFirst(s: string, i: nat, p: nat)
    requires i <= p < |s| && s[p] == '>'
    requires forall j | i <= j < p :: s[j] != '>'
    ensures CloseAt(s, i) == Some(p)
    decreases p - i
  {
    if i < p {
      CloseAtFirst(s, i + 1, p);
    }
  }

  /** Reads a rendered location back into its tags. */
  function ParseLocation(s: string): Option<seq<string>>
    decreases |s|
  {
    if |s| == 0 || s[0] != '<' then None
    else match CloseAt(s, 1)
      case None => None
      case Some(p) => ParseAfter(s[1..p], s[p + 1..])
  }

  /** No '>' occurs in `tag` (true of every XML element name). */
  predicate PlainTag(tag: string)
  {
    forall j | 0 <= j < |tag| :: tag[j] != '>'
  }

  predicate PlainTags(tags: seq<string>)
  {
    forall i | 0 <= i < |tags| :: PlainTag(tags[i])
  }

  /** Reading a wrapped tag followed by `rest` yields the tag, then
      whatever `rest` yields after its ", ". */
  lemma ParseWrapped(t: string, rest: string)
    requires PlainTag(t)
    requires |rest| >= 2 && rest[..2] == ", "
    ensures ParseLocation(Wrap(t) + rest) ==
      match ParseLocation(rest[2..])
      case None => None
      case Some(more) => Some([t] + more)
  {
    var s := Wrap(t) + rest;
    var p := |t| + 1;
    assert s[..p + 1] == Wrap(t) && s[p + 1..] == rest;
    CloseWrapped(t, s);
    assert ParseLocation(s) == ParseAfter(s[1..p], rest);
  }

  /** What ParseLocation makes of a location whose first tag `t` was
      followed by `rest`. */
  function ParseAfter(t: string, rest: string): Option<seq<string>>
    decreases |rest|
  {
    if rest == "" then Some([t])
    else if |rest| >= 2 && rest[..2] == ", " then
      match ParseLocation(rest[2..])
      case None => None
      case Some(more) => Some([t] + more)
    else None
  }

  /** In a string that opens with a wrapped plain tag, the first '>' closes it. */
  lemma CloseWrapped(t: string, s: string)
    requires PlainTag(t)
    requires |s| > |t| + 1 && s[..|t| + 2] == Wrap(t)
    ensures s[0] == '<' && CloseAt(s, 1) == Some(|t| + 1) && s[1..|t| + 1] == t
  {
    var w := Wrap(t);
    assert forall j | 1 <= j < |t| + 1 :: s[j] == w[j] == t[j - 1];
    assert s[|t| + 1] == w[|t| + 1];
    CloseAtFirst(s, 1, |t| + 1);
    assert s[1..|t| + 1] == w[1..|t| + 1] == t;
  }

  lemma ParseCons(t: string, tail: seq<string>, more: string)
    requires PlainTag(t) && ParseLocation(more) == Some(tail)
    ensures ParseLocation(Wrap(t) + ", " + more) == Some([t] + tail)
  {
    var rest := ", " + more;
    assert rest[2..] == more;
    assert rest[..2] == ", ";
    ParseWrapped(t, rest);
    assert Wrap(t) + ", " + more == Wrap(t) + rest;
  }

  lemma ParseSingle(t: string)
    requires PlainTag(t)
    ensures ParseLocation(Wrap(t)) == Some([t])
  {
    var s := Wrap(t);
    CloseWrapped(t, s);
    assert s[|t| + 2..] == "";
  }

  /** A rendered location lists exactly the tags it was made from, in order. */
  lemma {:induction false} ParseRender(tags: seq<string>)
    requires |tags| >= 1 && PlainTags(tags)
    ensures ParseLocation(Render(tags)) == Some(tags)
    decreases |tags|
  {
    var t := tags[0];
    assert PlainTag(t);
    if |tags| == 1 {
      ParseSingle(t);
      assert tags == [t];
    } else {
      var tail := tags[1..];
      assert PlainTags(tail) by {
        assert forall i | 0 <= i < |tail| :: tail[i] == tags[i + 1];
      }
      ParseRender(tail);
      ParseCons(t, tail, Render(tail));
      RenderCons(tags);
      assert [t] + tail == tags;
    }
  }

  /** localize_difference(form, node): the rendered parent nodes of `node`;
      ValueError when `node` is not an element of `form` (None included). */
  function LocalizeDifference(form: Node, node: Option<Node>): (r: Result<string>)
    ensures r.Ok? <==> node.Some? && node.value in GetChildren(form)
    ensures r.Err? ==> r.error == ValueError
    ensures r.Ok? ==> StartsWith(r.value, Wrap(form.tag)) && EndsWith(r.value, Wrap(node.value.tag))
    ensures r.Ok? && PlainTags(Tags(GetChildren(form))) ==>
      ParseLocation(r.value) == Some(Tags(GetParentNodes(form, node).value))
  {
    match GetParentNodes(form, node)
    case Err(e) => Err(e)
    case Ok(p) =>
      var tags := Tags(p);
      RenderEnds(tags);
      assert PlainTags(Tags(GetChildren(form))) ==> PlainTags(tags) by {
        assert forall i | 0 <= i < |p| :: tags[i] == Tags(GetChildren(form))[i];
      }
      assert PlainTags(tags) ==> ParseLocation(Render(tags)) == Some(tags) by {
        if PlainTags(tags) { ParseRender(tags); }
      }
      Ok(Render(tags))
  }

  /** With element identity, the element at position `k` of the traversal
      is located by the tags of the first `k + 1` elements. */
  lemma LocalizeAt(form: Node, k: nat)
    requires UniqueIds(form) && k < |GetChildren(form)|
    ensures LocalizeDifference(form, Some(GetChildren(form)[k])) == Ok(Render(Tags(GetChildren(form)[..k + 1])))
  {
    ParentNodesAt(form, k);
  }
}
