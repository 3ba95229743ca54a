/** Where every node of the tree hangs, whatever the tokens: under the elements that are open when its token comes. */
module HtmlPaths {
  import opened HtmlTree

  /** A mark and the tags of the elements above it, from the root down. */
  datatype Placed = Placed(path: seq<string>, mark: Mark)

  /* ------------------------- the open elements ------------------------- */

  /** How a token changes the tags of the open elements: an end tag closes the last one with its tag and all above that,
      never the root, and nothing if there is none. */
  ghost predicate Turns(open: seq<string>, token: Token, open': seq<string>)
  {
    match token
    case Start(tag, _) => open' == if tag in VOID_ELEMENTS then open else open + [tag]
    case StartEnd(_, _) => open' == open
    case End(tag) =>
      || (open' == open && forall i :: 0 < i < |open| ==> open[i] != tag)
      || (0 < |open'| < |open| && open' == open[..|open'|] && open[|open'|] == tag
          && forall i :: |open'| < i < |open| ==> open[i] != tag)
    case Chars(_) => open' == open
  }

  /** The open elements before each token and after the last. */
  ghost predicate OpenAlong(tokens: seq<Token>, opens: seq<seq<string>>)
  {
    && |opens| == |tokens| + 1 && opens[0] == ["[document]"]
    && forall k :: 0 <= k < |tokens| ==> Turns(opens[k], tokens[k], opens[k + 1])
  }

  /** What each token adds, under the elements open when it comes. */
  function TokenPlaces(tokens: seq<Token>, opens: seq<seq<string>>): seq<Placed>
    requires |opens| >= |tokens|
  {
    if tokens == [] then []
    else
      var n := |tokens| - 1;
      TokenPlaces(tokens[..n], opens) + Under(opens[n], TokenMark(tokens[n]))
  }

  function Under(path: seq<string>, marks: seq<Mark>): seq<Placed>
  {
    seq(|marks|, i requires 0 <= i < |marks| => Placed(path, marks[i]))
  }

  /* ------------------------- places in a tree ------------------------- */

  /** The elements and texts of a tree in pre-order, each with the elements above it. */
  function Places(t: Tree, path: seq<string>): seq<Placed>
  {
    match t
    case Data(s) => [Placed(path, DataMark(s))]
    case Element(tag, attrs, content) => [Placed(path, ElementMark(tag, attrs))] + PlacesOf(content, path + [tag])
  }

  function PlacesOf(ts: seq<Tree>, path: seq<string>): seq<Placed>
  {
    if ts == [] then [] else PlacesOf(ts[..|ts| - 1], path) + Places(ts[|ts| - 1], path)
  }

  function Tags(spine: seq<Frame>): seq<string>
  {
    seq(|spine|, i requires 0 <= i < |spine| => spine[i].tag)
  }

  function SpinePlaces(spine: Spine): seq<Placed>
  {
    AbovePlaces(spine) + PlacesOf(spine[|spine| - 1].content, Tags(spine))
  }

  /** What comes before the content of the innermost open element. */
  function AbovePlaces(spine: Spine): seq<Placed>
  {
    var n := |spine| - 1;
    if n == 0 then []
    else
      AbovePlaces(spine[..n]) + PlacesOf(spine[n - 1].content, Tags(spine[..n]))
      + [Placed(Tags(spine[..n]), ElementMark(spine[n].tag, spine[n].attrs))]
  }

  /* ------------------------- proofs ------------------------- */

  lemma {:induction false} PlacesConcat(a: seq<Tree>, b: seq<Tree>, path: seq<string>)
    ensures PlacesOf(a + b, path) == PlacesOf(a, path) + PlacesOf(b, path)
  {
    if b == [] {
      assert a + b == a;
    } else {
      var n := |b| - 1;
      assert (a + b)[..|a + b| - 1] == a + b[..n] && (a + b)[|a + b| - 1] == b[n];
      assert PlacesOf(a + b, path) == PlacesOf(a + b[..n], path) + Places(b[n], path);
      assert PlacesOf(b, path) == PlacesOf(b[..n], path) + Places(b[n], path);
      hide PlacesOf, Places;
      PlacesConcat(a, b[..n], path);
    }
  }

  lemma AppendTags(spine: Spine, ts: seq<Tree>)
    ensures Tags(Append(spine, ts)) == Tags(spine)
  {
  }

  lemma AppendAbove(spine: Spine, ts: seq<Tree>)
    ensures AbovePlaces(Append(spine, ts)) == AbovePlaces(spine)
    ensures |Append(spine, ts)| == |spine|
    ensures Append(spine, ts)[|spine| - 1].content == spine[|spine| - 1].content + ts
  {
    var n := |spine| - 1;
    assert Append(spine, ts)[..n] == spine[..n];
    hide PlacesOf, Tags;
  }

  lemma OnlyOne(t: Tree, path: seq<string>)
    ensures PlacesOf([t], path) == Places(t, path)
  {
    assert [t][..0] == [] && PlacesOf([t][..0], path) == [];
  }

  lemma AppendPlaces(spine: Spine, t: Tree)
    ensures SpinePlaces(Append(spine, [t])) == SpinePlaces(spine) + Places(t, Tags(spine))
  {
    AppendTags(spine, [t]);
    AppendAbove(spine, [t]);
    PlacesConcat(spine[|spine| - 1].content, [t], Tags(spine));
    OnlyOne(t, Tags(spine));
    hide PlacesOf, Places, AbovePlaces, Append, Tags;
  }

  lemma ElementPlaces(f: Frame, path: seq<string>)
    ensures Places(Element(f.tag, f.attrs, f.content), path)
         == [Placed(path, ElementMark(f.tag, f.attrs))] + PlacesOf(f.content, path + [f.tag])
  {
  }

  lemma TagsTop(spine: Spine)
    ensures |Tags(spine)| == |spine|
    ensures |spine| > 1 ==> Tags(spine) == Tags(spine[..|spine| - 1]) + [spine[|spine| - 1].tag]
    ensures |spine| > 1 ==> Tags(spine[..|spine| - 1]) == Tags(spine)[..|spine| - 1]
  {
  }

  /** The innermost open element comes last. */
  lemma TopPlaces(spine: Spine)
    requires |spine| > 1
    ensures var n := |spine| - 1;
      SpinePlaces(spine) == SpinePlaces(spine[..n])
        + ([Placed(Tags(spine[..n]), ElementMark(spine[n].tag, spine[n].attrs))]
           + PlacesOf(spine[n].content, Tags(spine)))
  {
    var n := |spine| - 1;
    assert spine[..n][n - 1] == spine[n - 1];
    hide PlacesOf, Tags;
  }

  lemma CloseTopPlaces(spine: Spine)
    requires |spine| > 1
    ensures SpinePlaces(CloseTop(spine)) == SpinePlaces(spine) && Tags(CloseTop(spine)) == Tags(spine)[..|spine| - 1]
    ensures |CloseTop(spine)| == |spine| - 1
  {
    var n := |spine| - 1;
    var rest, t := spine[..n], Element(spine[n].tag, spine[n].attrs, spine[n].content);
    assert CloseTop(spine) == Append(rest, [t]);
    hide *;
    AppendPlaces(rest, t);
    AppendTags(rest, [t]);
    AppendAbove(rest, [t]);
    ElementPlaces(spine[n], Tags(rest));
    TagsTop(spine);
    TopPlaces(spine);
  }

  lemma {:induction false} CloseToPlaces(spine: Spine, k: nat)
    requires 0 < k <= |spine|
    ensures SpinePlaces(CloseTo(spine, k)) == SpinePlaces(spine) && Tags(CloseTo(spine, k)) == Tags(spine)[..k]
    decreases |spine|
  {
    hide SpinePlaces, CloseTop, Tags;
    TagsTop(spine);
    if |spine| > k {
      CloseTopPlaces(spine);
      CloseToPlaces(CloseTop(spine), k);
    }
  }

  lemma {:induction false} InnermostMeaning(spine: Spine, tag: string, k: nat)
    requires k <= |spine|
    ensures var i := Innermost(spine, tag, k);
      && (i > 0 ==> i < k && spine[i].tag == tag)
      && (forall x :: i < x < k ==> spine[x].tag != tag)
  {
    if k > 1 && spine[k - 1].tag != tag {
      InnermostMeaning(spine, tag, k - 1);
    }
  }

  lemma OpenPlaces(spine: Spine, tag: string, attrs: Attrs)
    ensures SpinePlaces(spine + [Frame(tag, attrs, [])])
         == SpinePlaces(spine) + [Placed(Tags(spine), ElementMark(tag, attrs))]
    ensures Tags(spine + [Frame(tag, attrs, [])]) == Tags(spine) + [tag]
  {
    assert (spine + [Frame(tag, attrs, [])])[..|spine|] == spine;
    assert PlacesOf([], Tags(spine + [Frame(tag, attrs, [])])) == [];
    hide Places;
  }

  /** The node that a token adds. */
  function Leaf(token: Token): Tree
    requires !token.End?
  {
    match token
    case Start(tag, attrs) => Element(tag, attrs, [])
    case StartEnd(tag, attrs) => Element(tag, attrs, [])
    case Chars(data) => Data(data)
  }

  lemma OnePlace(token: Token, path: seq<string>)
    ensures if token.End? then Under(path, TokenMark(token)) == []
            else Places(Leaf(token), path) == Under(path, TokenMark(token))
  {
    if token.Start? || token.StartEnd? {
      assert PlacesOf([], path + [token.tag]) == [];
    }
  }

  lemma EndPlaces(spine: Spine, tag: string)
    ensures SpinePlaces(Feed(spine, End(tag))) == SpinePlaces(spine)
    ensures Turns(Tags(spine), End(tag), Tags(Feed(spine, End(tag))))
  {
    var i := Innermost(spine, tag, |spine|);
    InnermostMeaning(spine, tag, |spine|);
    hide SpinePlaces, CloseTo, Innermost;
    if i > 0 {
      CloseToPlaces(spine, i);
    }
  }

  lemma FeedPlaces(spine: Spine, token: Token)
    ensures SpinePlaces(Feed(spine, token)) == SpinePlaces(spine) + Under(Tags(spine), TokenMark(token))
    ensures Turns(Tags(spine), token, Tags(Feed(spine, token)))
  {
    OnePlace(token, Tags(spine));
    assert SpinePlaces(spine) + [] == SpinePlaces(spine);
    hide SpinePlaces, Append, PlacesOf, Places, Tags, CloseTo, Innermost;
    match token
    case Start(tag, attrs) =>
      if tag in VOID_ELEMENTS {
        AppendTags(spine, [Element(tag, attrs, [])]);
        AppendPlaces(spine, Element(tag, attrs, []));
      } else {
        OpenPlaces(spine, tag, attrs);
      }
    case StartEnd(tag, attrs) =>
      AppendTags(spine, [Element(tag, attrs, [])]);
      AppendPlaces(spine, Element(tag, attrs, []));
    case End(tag) => EndPlaces(spine, tag);
    case Chars(data) =>
      AppendTags(spine, [Data(data)]);
      AppendPlaces(spine, Data(data));
  }

  lemma TurnsOnce(open: seq<string>, token: Token, a: seq<string>, b: seq<string>)
    requires Turns(open, token, a) && Turns(open, token, b)
    ensures a == b
  {
  }

  lemma {:induction false} FeedAllPlaces(tokens: seq<Token>, opens: seq<seq<string>>)
    requires OpenAlong(tokens, opens)
    ensures SpinePlaces(FeedAll(EMPTY, tokens)) == TokenPlaces(tokens, opens)
    ensures Tags(FeedAll(EMPTY, tokens)) == opens[|tokens|]
  {
    if tokens == [] {
      assert Tags(EMPTY) == ["[document]"] && PlacesOf([], Tags(EMPTY)) == [];
    } else {
      var n := |tokens| - 1;
      FeedAllPlaces(tokens[..n], opens[..n + 1]);
      PlacesPrefix(tokens[..n], opens);
      var spine := FeedAll(EMPTY, tokens[..n]);
      FeedPlaces(spine, tokens[n]);
      hide SpinePlaces, Feed, Turns, Tags, TokenPlaces, Under;
      TurnsOnce(opens[n], tokens[n], Tags(Feed(spine, tokens[n])), opens[n + 1]);
    }
  }

  lemma {:induction false} PlacesPrefix(tokens: seq<Token>, opens: seq<seq<string>>)
    requires |opens| > |tokens|
    ensures TokenPlaces(tokens, opens[..|tokens| + 1]) == TokenPlaces(tokens, opens)
  {
    if tokens != [] {
      var n := |tokens| - 1;
      PlacesPrefix(tokens[..n], opens);
      PlacesPrefix(tokens[..n], opens[..|tokens| + 1]);
      assert opens[..|tokens| + 1][..n + 1] == opens[..n + 1];
    }
  }

  /** Whatever the tokens, also mis-nested or unmatched: every element and text hangs under
      the elements that were open when its token came. */
  lemma PlacesAreOpenElements(tokens: seq<Token>, opens: seq<seq<string>>)
    requires OpenAlong(tokens, opens)
    ensures Parse(tokens).Element? && PlacesOf(Parse(tokens).content, ["[document]"]) == TokenPlaces(tokens, opens)
  {
    var spine := FeedAll(EMPTY, tokens);
    FeedAllPlaces(tokens, opens);
    CloseToPlaces(spine, 1);
    CloseToSize(spine, 1);
    RootTag(tokens, opens);
    hide FeedAll, CloseTo, TokenPlaces;
    assert Tags(CloseTo(spine, 1)) == ["[document]"];
  }

  lemma {:induction false} RootTag(tokens: seq<Token>, opens: seq<seq<string>>)
    requires OpenAlong(tokens, opens)
    ensures opens[|tokens|] != [] && opens[|tokens|][0] == "[document]"
  {
    if tokens != [] {
      var n := |tokens| - 1;
      RootTag(tokens[..n], opens[..n + 1]);
      assert Turns(opens[n], tokens[n], opens[n + 1]);
    }
  }

  /** The open elements are determined by the tokens, and exist for every stream. */
  lemma {:induction false} OpensExist(tokens: seq<Token>) returns (opens: seq<seq<string>>)
    ensures OpenAlong(tokens, opens)
  {
    if tokens == [] {
      opens := [["[document]"]];
    } else {
      var n := |tokens| - 1;
      var rest := OpensExist(tokens[..n]);
      FeedAllPlaces(tokens[..n], rest);
      var spine := FeedAll(EMPTY, tokens[..n]);
      FeedPlaces(spine, tokens[n]);
      opens := rest + [Tags(Feed(spine, tokens[n]))];
      hide Turns, Feed, FeedAll, Tags;
      forall k | 0 <= k < |tokens| ensures Turns(opens[k], tokens[k], opens[k + 1]) {
        if k < n {
          assert Turns(rest[k], tokens[..n][k], rest[k + 1]);
        }
      }
    }
  }
}
