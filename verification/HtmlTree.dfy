/** The tree builder over HTML tokens, on values: what every stream of tokens builds, and the text of what it builds. */
module HtmlTree {
  import opened Text

  /** Tags and attribute names are in lower case. */
  type Attrs = map<string, string>

  datatype Tree = Data(data: string) | Element(tag: string, attrs: Attrs, content: seq<Tree>)

  datatype Token =
    | Start(tag: string, attrs: Attrs)
    | StartEnd(tag: string, attrs: Attrs)
    | End(tag: string)
    | Chars(data: string)

  const VOID_ELEMENTS := {
    "area", "base", "br", "col", "embed", "hr", "img", "input", "link", "meta", "param", "source", "track", "wbr"
  }

  /** An element still open, with its content so far. */
  datatype Frame = Frame(tag: string, attrs: Attrs, content: seq<Tree>)

  /** The open elements from the root down; an open element is the last item of the one above it. */
  type Spine = s: seq<Frame> | |s| > 0 witness [Frame("[document]", map[], [])]

  const EMPTY: Spine := [Frame("[document]", map[], [])]

  function Append(spine: Spine, ts: seq<Tree>): Spine
  {
    var top := |spine| - 1;
    spine[top := spine[top].(content := spine[top].content + ts)]
  }

  /** The innermost open element moves into the content of the one above it. */
  function CloseTop(spine: Spine): Spine
    requires |spine| > 1
  {
    var top := spine[|spine| - 1];
    Append(spine[..|spine| - 1], [Element(top.tag, top.attrs, top.content)])
  }

  function CloseTo(spine: Spine, k: nat): Spine
    requires 0 < k
    decreases |spine|
  {
    if |spine| <= k then spine else CloseTo(CloseTop(spine), k)
  }

  /** Index of the innermost open element below the root with this tag among the first `k`; 0 if there is none. */
  function Innermost(spine: Spine, tag: string, k: nat): (i: nat)
    requires k <= |spine|
    ensures i == 0 || i < k
  {
    if k <= 1 then 0
    else if spine[k - 1].tag == tag then k - 1
    else Innermost(spine, tag, k - 1)
  }

  /** One token. */
  function Feed(spine: Spine, token: Token): Spine
  {
    match token
    case Start(tag, attrs) =>
      if tag in VOID_ELEMENTS then Append(spine, [Element(tag, attrs, [])]) else spine + [Frame(tag, attrs, [])]
    case StartEnd(tag, attrs) => Append(spine, [Element(tag, attrs, [])])
    case End(tag) =>
      var i := Innermost(spine, tag, |spine|);
      if i == 0 then spine else CloseTo(spine, i)
    case Chars(data) => Append(spine, [Data(data)])
  }

  function FeedAll(spine: Spine, tokens: seq<Token>): Spine
  {
    if tokens == [] then spine else Feed(FeedAll(spine, tokens[..|tokens| - 1]), tokens[|tokens| - 1])
  }

  /** The tree that hangs off the root. */
  function Root(spine: Spine): Tree
  {
    var root := CloseTo(spine, 1)[0];
    Element(root.tag, root.attrs, root.content)
  }

  /** `parse_html` after tokenising. */
  function Parse(tokens: seq<Token>): Tree
  {
    Root(FeedAll(EMPTY, tokens))
  }

  /* ------------------------- pre-order ------------------------- */

  datatype Mark = ElementMark(tag: string, attrs: Attrs) | DataMark(data: string)

  /** The elements and texts of a tree in pre-order. */
  function Marks(t: Tree): seq<Mark>
  {
    match t
    case Data(s) => [DataMark(s)]
    case Element(tag, attrs, content) => [ElementMark(tag, attrs)] + MarksOf(content)
  }

  function MarksOf(ts: seq<Tree>): seq<Mark>
  {
    if ts == [] then [] else MarksOf(ts[..|ts| - 1]) + Marks(ts[|ts| - 1])
  }

  /** What a token adds to the document. */
  function TokenMark(token: Token): seq<Mark>
  {
    match token
    case Start(tag, attrs) => [ElementMark(tag, attrs)]
    case StartEnd(tag, attrs) => [ElementMark(tag, attrs)]
    case End(_) => []
    case Chars(data) => [DataMark(data)]
  }

  function TokenMarks(tokens: seq<Token>): seq<Mark>
  {
    if tokens == [] then [] else TokenMarks(tokens[..|tokens| - 1]) + TokenMark(tokens[|tokens| - 1])
  }

  function SpineMarks(spine: Spine): seq<Mark>
  {
    var n := |spine| - 1;
    if n == 0 then MarksOf(spine[0].content)
    else SpineMarks(spine[..n]) + [ElementMark(spine[n].tag, spine[n].attrs)] + MarksOf(spine[n].content)
  }

  lemma {:induction false} MarksConcat(a: seq<Tree>, b: seq<Tree>)
    ensures MarksOf(a + b) == MarksOf(a) + MarksOf(b)
  {
    if b == [] {
      assert a + b == a;
    } else {
      var n := |b| - 1;
      assert (a + b)[..|a + b| - 1] == a + b[..n] && (a + b)[|a + b| - 1] == b[n];
      assert MarksOf(a + b) == MarksOf(a + b[..n]) + Marks(b[n]) && MarksOf(b) == MarksOf(b[..n]) + Marks(b[n]);
      hide MarksOf, Marks;
      MarksConcat(a, b[..n]);
    }
  }

  lemma AppendMarks(spine: Spine, t: Tree)
    ensures SpineMarks(Append(spine, [t])) == SpineMarks(spine) + Marks(t)
  {
    var n := |spine| - 1;
    var after := Append(spine, [t]);
    MarksConcat(spine[n].content, [t]);
    assert [t][..0] == [] && MarksOf([t]) == Marks(t);
    hide MarksOf, Marks;
    assert after[..n] == spine[..n];
  }

  lemma CloseTopMarks(spine: Spine)
    requires |spine| > 1
    ensures SpineMarks(CloseTop(spine)) == SpineMarks(spine) && |CloseTop(spine)| == |spine| - 1
  {
    var n := |spine| - 1;
    AppendMarks(spine[..n], Element(spine[n].tag, spine[n].attrs, spine[n].content));
    hide MarksOf, Append;
  }

  lemma {:induction false} CloseToMarks(spine: Spine, k: nat)
    requires 0 < k
    ensures SpineMarks(CloseTo(spine, k)) == SpineMarks(spine)
    decreases |spine|
  {
    hide SpineMarks, CloseTop;
    if |spine| > k {
      CloseTopMarks(spine);
      CloseToMarks(CloseTop(spine), k);
    }
  }

  lemma {:induction false} FeedAllMarks(spine: Spine, tokens: seq<Token>)
    ensures SpineMarks(FeedAll(spine, tokens)) == SpineMarks(spine) + TokenMarks(tokens)
  {
    if tokens != [] {
      var n := |tokens| - 1;
      FeedAllMarks(spine, tokens[..n]);
      FeedMarks(FeedAll(spine, tokens[..n]), tokens[n]);
    }
  }

  lemma FeedMarks(spine: Spine, token: Token)
    ensures SpineMarks(Feed(spine, token)) == SpineMarks(spine) + TokenMark(token)
  {
    OneMark(token);
    hide SpineMarks, Append, CloseTo, Innermost, MarksOf, Marks;
    match token
    case Start(tag, attrs) =>
      if tag in VOID_ELEMENTS {
        AppendMarks(spine, Element(tag, attrs, []));
      } else {
        OpenMarks(spine, tag, attrs);
      }
    case StartEnd(tag, attrs) => AppendMarks(spine, Element(tag, attrs, []));
    case End(tag) =>
      if Innermost(spine, tag, |spine|) > 0 {
        CloseToMarks(spine, Innermost(spine, tag, |spine|));
      }
    case Chars(data) => AppendMarks(spine, Data(data));
  }

  lemma OneMark(token: Token)
    ensures match token
            case Start(tag, attrs) => Marks(Element(tag, attrs, [])) == TokenMark(token)
            case StartEnd(tag, attrs) => Marks(Element(tag, attrs, [])) == TokenMark(token)
            case End(_) => TokenMark(token) == []
            case Chars(data) => Marks(Data(data)) == TokenMark(token)
  {
    assert MarksOf([]) == [];
  }

  lemma OpenMarks(spine: Spine, tag: string, attrs: Attrs)
    ensures SpineMarks(spine + [Frame(tag, attrs, [])]) == SpineMarks(spine) + [ElementMark(tag, attrs)]
  {
    assert (spine + [Frame(tag, attrs, [])])[..|spine|] == spine;
    assert MarksOf([]) == [];
  }

  lemma {:induction false} CloseToSize(spine: Spine, k: nat)
    requires 0 < k
    ensures |CloseTo(spine, k)| == if |spine| <= k then |spine| else k
    ensures CloseTo(spine, k)[0].tag == spine[0].tag && CloseTo(spine, k)[0].attrs == spine[0].attrs
    decreases |spine|
  {
    if |spine| > k {
      CloseToSize(CloseTop(spine), k);
    }
  }

  /** Whatever the tokens, also mis-nested or unmatched, the tree lists every element and text once,
      in pre-order, in the order of their tokens. */
  lemma PreorderIsTokenOrder(tokens: seq<Token>)
    ensures Parse(tokens).Element? && MarksOf(Parse(tokens).content) == TokenMarks(tokens)
  {
    var spine := FeedAll(EMPTY, tokens);
    FeedAllMarks(EMPTY, tokens);
    CloseToMarks(spine, 1);
    CloseToSize(spine, 1);
    assert SpineMarks(EMPTY) == [];
    hide CloseTo, FeedAll;
  }

  /* ------------------------- well-formed trees ------------------------- */

  /** The tokens of a tree; a void element has no end tag. */
  function TokensOf(t: Tree): seq<Token>
  {
    match t
    case Data(s) => [Chars(s)]
    case Element(tag, attrs, content) =>
      [Start(tag, attrs)] + TokensOfAll(content) + if tag in VOID_ELEMENTS then [] else [End(tag)]
  }

  function TokensOfAll(ts: seq<Tree>): seq<Token>
  {
    if ts == [] then [] else TokensOfAll(ts[..|ts| - 1]) + TokensOf(ts[|ts| - 1])
  }

  predicate WellFormed(t: Tree)
  {
    t.Element? ==> (t.tag in VOID_ELEMENTS ==> t.content == []) && AllWellFormed(t.content)
  }

  predicate AllWellFormed(ts: seq<Tree>)
  {
    ts != [] ==> AllWellFormed(ts[..|ts| - 1]) && WellFormed(ts[|ts| - 1])
  }

  lemma {:induction false} FeedAllConcat(spine: Spine, a: seq<Token>, b: seq<Token>)
    ensures FeedAll(spine, a + b) == FeedAll(FeedAll(spine, a), b)
  {
    if b == [] {
      assert a + b == a;
    } else {
      assert (a + b)[..|a + b| - 1] == a + b[..|b| - 1];
      FeedAllConcat(spine, a, b[..|b| - 1]);
    }
  }

  lemma FeedOne(spine: Spine, token: Token)
    ensures FeedAll(spine, [token]) == Feed(spine, token)
  {
    assert [token][..0] == [];
  }

  lemma AppendTwice(spine: Spine, a: seq<Tree>, b: seq<Tree>)
    ensures Append(Append(spine, a), b) == Append(spine, a + b)
  {
    var n := |spine| - 1;
    assert spine[n].content + a + b == spine[n].content + (a + b);
  }

  /** Feeding the tokens of well-formed trees appends exactly those trees. */
  lemma {:induction false} TreesRoundTrip(spine: Spine, ts: seq<Tree>)
    requires AllWellFormed(ts)
    ensures FeedAll(spine, TokensOfAll(ts)) == Append(spine, ts)
    decreases ts
  {
    if ts == [] {
      assert spine[|spine| - 1].content + [] == spine[|spine| - 1].content;
    } else {
      var n := |ts| - 1;
      TreesRoundTrip(spine, ts[..n]);
      FeedAllConcat(spine, TokensOfAll(ts[..n]), TokensOf(ts[n]));
      TreeRoundTrip(Append(spine, ts[..n]), ts[n]);
      AppendTwice(spine, ts[..n], [ts[n]]);
      assert ts[..n] + [ts[n]] == ts;
    }
  }

  lemma {:induction false} TreeRoundTrip(spine: Spine, t: Tree)
    requires WellFormed(t)
    ensures FeedAll(spine, TokensOf(t)) == Append(spine, [t])
    decreases t
  {
    match t
    case Data(s) => FeedOne(spine, Chars(s));
    case Element(tag, attrs, content) =>
      if tag in VOID_ELEMENTS {
        FeedOne(spine, Start(tag, attrs));
        assert TokensOf(t) == [Start(tag, attrs)];
      } else {
        var child := spine + [Frame(tag, attrs, [])];
        FeedOne(spine, Start(tag, attrs));
        FeedAllConcat(spine, [Start(tag, attrs)], TokensOfAll(content));
        TreesRoundTrip(child, content);
        FeedAllConcat(spine, [Start(tag, attrs)] + TokensOfAll(content), [End(tag)]);
        FeedOne(Append(child, content), End(tag));
        EndCloses(spine, tag, attrs, content);
      }
  }

  /** An end tag closes the innermost element when that has its tag. */
  lemma EndCloses(spine: Spine, tag: string, attrs: Attrs, content: seq<Tree>)
    ensures Feed(Append(spine + [Frame(tag, attrs, [])], content), End(tag))
      == Append(spine, [Element(tag, attrs, content)])
  {
    var open := Append(spine + [Frame(tag, attrs, [])], content);
    assert [] + content == content;
    assert open == spine + [Frame(tag, attrs, content)];
    assert open[..|spine|] == spine;
    assert CloseTo(open, |spine|) == CloseTop(open);
  }

  lemma {:induction false} AllWellFormedSnoc(ts: seq<Tree>, t: Tree)
    ensures AllWellFormed(ts + [t]) <==> AllWellFormed(ts) && WellFormed(t)
  {
    assert (ts + [t])[..|ts|] == ts;
  }

  /** Void elements are never open and nothing malformed is ever built. */
  ghost predicate SpineOk(spine: Spine)
  {
    forall i :: 0 <= i < |spine| ==> spine[i].tag !in VOID_ELEMENTS && AllWellFormed(spine[i].content)
  }

  lemma AppendOk(spine: Spine, t: Tree)
    requires SpineOk(spine) && WellFormed(t)
    ensures SpineOk(Append(spine, [t]))
  {
    AllWellFormedSnoc(spine[|spine| - 1].content, t);
  }

  lemma {:induction false} CloseToOk(spine: Spine, k: nat)
    requires SpineOk(spine) && 0 < k
    ensures SpineOk(CloseTo(spine, k))
    decreases |spine|
  {
    if |spine| > k {
      var top := spine[|spine| - 1];
      AppendOk(spine[..|spine| - 1], Element(top.tag, top.attrs, top.content));
      CloseToOk(CloseTop(spine), k);
    }
  }

  lemma {:induction false} FeedAllOk(spine: Spine, tokens: seq<Token>)
    requires SpineOk(spine)
    ensures SpineOk(FeedAll(spine, tokens))
  {
    if tokens != [] {
      var n := |tokens| - 1;
      FeedAllOk(spine, tokens[..n]);
      FeedOk(FeedAll(spine, tokens[..n]), tokens[n]);
    }
  }

  lemma FeedOk(spine: Spine, token: Token)
    requires SpineOk(spine)
    ensures SpineOk(Feed(spine, token))
  {
    assert AllWellFormed([]);
    match token
    case Start(tag, attrs) =>
      if tag in VOID_ELEMENTS {
        AppendOk(spine, Element(tag, attrs, []));
      }
    case StartEnd(tag, attrs) => AppendOk(spine, Element(tag, attrs, []));
    case End(tag) =>
      if Innermost(spine, tag, |spine|) > 0 {
        CloseToOk(spine, Innermost(spine, tag, |spine|));
      }
    case Chars(data) => AppendOk(spine, Data(data));
  }

  /** The tokens of a document give the document back exactly when its void elements are empty. */
  lemma RoundTripExact(content: seq<Tree>)
    ensures Parse(TokensOfAll(content)) == Element("[document]", map[], content) <==> AllWellFormed(content)
  {
    if AllWellFormed(content) {
      TreesRoundTrip(EMPTY, content);
      assert [] + content == content;
    }
    var spine := FeedAll(EMPTY, TokensOfAll(content));
    FeedAllOk(EMPTY, TokensOfAll(content));
    CloseToOk(spine, 1);
    CloseToSize(spine, 1);
  }

  /* ------------------------- text ------------------------- */

  /** `HtmlNode.text`, and `clean_text` of a text item. */
  function TextOf(t: Tree): string
  {
    match t
    case Data(s) => Clean(s)
    case Element(_, _, content) => Clean(Join(Parts(content)))
  }

  /** The non-empty texts of the items. */
  function Parts(ts: seq<Tree>): seq<string>
  {
    if ts == [] then []
    else
      var v := TextOf(ts[|ts| - 1]);
      Parts(ts[..|ts| - 1]) + if v == "" then [] else [v]
  }

  /** The texts among marks, in order. */
  function Texts(ms: seq<Mark>): seq<string>
  {
    if ms == [] then []
    else
      Texts(ms[..|ms| - 1]) +
      match ms[|ms| - 1]
      case ElementMark(_, _) => []
      case DataMark(s) => [s]
  }

  lemma {:induction false} TextsConcat(a: seq<Mark>, b: seq<Mark>)
    ensures Texts(a + b) == Texts(a) + Texts(b)
  {
    if b == [] {
      assert a + b == a;
    } else {
      assert (a + b)[..|a + b| - 1] == a + b[..|b| - 1];
      TextsConcat(a, b[..|b| - 1]);
    }
  }

  lemma {:induction false} WordsOfParts(ts: seq<Tree>)
    ensures WordsOfAll(Parts(ts)) == WordsOfAll(Texts(MarksOf(ts)))
    decreases ts
  {
    if ts != [] {
      var n := |ts| - 1;
      WordsOfParts(ts[..n]);
      WordsOfText(ts[n]);
      WordsOfAllConcat(Parts(ts[..n]), [TextOf(ts[n])]);
      TextsConcat(MarksOf(ts[..n]), Marks(ts[n]));
      WordsOfAllConcat(Texts(MarksOf(ts[..n])), Texts(Marks(ts[n])));
      WordsOfOne(TextOf(ts[n]));
      PartsSnoc(ts);
      hide Parts, TextOf, Texts, MarksOf, Marks, WordsOfAll, Words;
      if TextOf(ts[n]) == "" {
        assert WordsOfAll(Parts(ts[..n])) + [] == WordsOfAll(Parts(ts[..n]));
        assert Parts(ts[..n]) + [] == Parts(ts[..n]);
      }
    }
  }

  lemma PartsSnoc(ts: seq<Tree>)
    requires ts != []
    ensures var n := |ts| - 1;
      && Parts(ts) == Parts(ts[..n]) + (if TextOf(ts[n]) == "" then [] else [TextOf(ts[n])])
      && MarksOf(ts) == MarksOf(ts[..n]) + Marks(ts[n]) && Words("") == []
  {
  }

  lemma WordsOfOne(s: string)
    ensures WordsOfAll([s]) == Words(s)
  {
    assert [s][1..] == [];
    assert WordsOfAll([]) == [];
  }

  lemma {:induction false} WordsOfText(t: Tree)
    ensures Words(TextOf(t)) == WordsOfAll(Texts(Marks(t)))
    decreases t
  {
    match t
    case Data(s) =>
      WordsOfClean(s);
      WordsOfOne(s);
      assert [DataMark(s)][..0] == [];
    case Element(tag, attrs, content) =>
      WordsOfClean(Join(Parts(content)));
      WordsOfJoin(Parts(content));
      WordsOfParts(content);
      TextsConcat([ElementMark(tag, attrs)], MarksOf(content));
      assert [ElementMark(tag, attrs)][..0] == [] && Texts([ElementMark(tag, attrs)]) == [];
      assert [] + Texts(MarksOf(content)) == Texts(MarksOf(content));
  }

  /** The text of a document is the words of all its character data, in order, joined by single spaces. */
  lemma TextIsWords(tokens: seq<Token>)
    ensures TextOf(Parse(tokens)) == Join(WordsOfAll(Texts(TokenMarks(tokens))))
  {
    PreorderIsTokenOrder(tokens);
    hide Parse, TokenMarks;
    var content := Parse(tokens).content;
    WordsOfParts(content);
    WordsOfJoin(Parts(content));
  }
}
