/** The tree parser as it is written: nodes changed in place through a stack of open nodes. */
module HtmlParser {
  import opened Support
  import opened Text
  import opened HtmlTree

  datatype Item = TextItem(data: string) | NodeItem(node: HtmlNode)

  class HtmlNode {
    const tag: string
    const attrs: Attrs
    var content: seq<Item>

    constructor (tag: string, attrs: Attrs)
      ensures this.tag == tag && this.attrs == attrs && content == []
    {
      this.tag, this.attrs, content := tag, attrs, [];
    }

    /** `text`. */
    method Text(ghost t: Tree, ghost nodes: set<HtmlNode>) returns (s: string)
      requires Shows(NodeItem(this), t, nodes)
      ensures s == TextOf(t)
      decreases t
    {
      hide Clean, Join;
      var parts: seq<string> := [];
      assert Parts(t.content[..0]) == [];
      for i := 0 to |content|
        invariant parts == Parts(t.content[..i])
      {
        assert Shows(content[i], t.content[i], nodes);
        assert t.content[..i + 1][..i] == t.content[..i];
        var value: string;
        match content[i] {
          case NodeItem(node) => value := node.Text(t.content[i], nodes);
          case TextItem(data) => value := Clean(data);
        }
        if value != "" {
          parts := parts + [value];
        }
      }
      assert t.content[..|content|] == t.content;
      s := Clean(Join(parts));
    }
  }

  /** The item stands for the tree, all of its nodes being in `nodes`. */
  ghost predicate Shows(item: Item, t: Tree, nodes: set<HtmlNode>)
    reads nodes
    decreases t, 0
  {
    match t
    case Data(s) => item == TextItem(s)
    case Element(tag, attrs, content) =>
      && item.NodeItem? && item.node in nodes && item.node.tag == tag && item.node.attrs == attrs
      && ShowsAll(item.node.content, content, nodes)
  }

  ghost predicate ShowsAll(items: seq<Item>, ts: seq<Tree>, nodes: set<HtmlNode>)
    reads nodes
    decreases ts, 1
  {
    |items| == |ts| && forall i :: 0 <= i < |items| ==> Shows(items[i], ts[i], nodes)
  }

  lemma {:induction false} ShowsMore(item: Item, t: Tree, nodes: set<HtmlNode>, more: set<HtmlNode>)
    requires Shows(item, t, nodes) && nodes <= more
    ensures Shows(item, t, more)
    decreases t
  {
    if t.Element? {
      forall i | 0 <= i < |item.node.content| ensures Shows(item.node.content[i], t.content[i], more) {
        ShowsMore(item.node.content[i], t.content[i], nodes, more);
      }
    }
  }

  lemma ShowsAllMore(items: seq<Item>, ts: seq<Tree>, nodes: set<HtmlNode>, more: set<HtmlNode>)
    requires ShowsAll(items, ts, nodes) && nodes <= more
    ensures ShowsAll(items, ts, more)
  {
    forall i | 0 <= i < |items| ensures Shows(items[i], ts[i], more) {
      ShowsMore(items[i], ts[i], nodes, more);
    }
  }

  /** Node `i` of the stack holds what frame `i` holds, and then the next node of the stack. */
  ghost predicate FrameOk(stack: seq<HtmlNode>, spine: Spine, settled: set<HtmlNode>, i: nat)
    requires i < |stack| == |spine|
    reads stack, settled
  {
    var node, frame := stack[i], spine[i];
    && node.tag == frame.tag && node.attrs == frame.attrs
    && |node.content| == |frame.content| + (if i < |stack| - 1 then 1 else 0)
    && ShowsAll(node.content[..|frame.content|], frame.content, settled)
    && (i < |stack| - 1 ==> node.content[|frame.content|] == NodeItem(stack[i + 1]))
  }

  /** The nodes of the stack hold the frames of the spine; `settled` nodes are off the stack and change no more. */
  ghost predicate Linked(stack: seq<HtmlNode>, spine: Spine, settled: set<HtmlNode>)
    reads stack, settled
  {
    && |stack| == |spine| && Distinct(stack)
    && (forall i :: 0 <= i < |stack| ==> stack[i] !in settled)
    && (forall i :: 0 <= i < |stack| ==> FrameOk(stack, spine, settled, i))
  }

  lemma FrameMore(stack: seq<HtmlNode>, spine: Spine, settled: set<HtmlNode>, more: set<HtmlNode>, i: nat)
    requires i < |stack| == |spine| && FrameOk(stack, spine, settled, i) && settled <= more
    ensures FrameOk(stack, spine, more, i)
  {
    ShowsAllMore(stack[i].content[..|spine[i].content|], spine[i].content, settled, more);
  }

  /** Popping the innermost node settles it and completes its element in the node above. */
  lemma PopLinked(stack: seq<HtmlNode>, spine: Spine, settled: set<HtmlNode>)
    requires Linked(stack, spine, settled) && |stack| > 1
    ensures Linked(stack[..|stack| - 1], CloseTop(spine), settled + {stack[|stack| - 1]})
  {
    var n := |stack| - 1;
    var rest, closed, more := stack[..n], CloseTop(spine), settled + {stack[n]};
    forall i | 0 <= i < n ensures FrameOk(rest, closed, more, i) {
      assert FrameOk(stack, spine, settled, i);
      FrameMore(stack, spine, settled, more, i);
      if i == n - 1 {
        assert FrameOk(stack, spine, settled, n);
        FrameMore(stack, spine, settled, more, n);
        TopShown(stack, spine, more);
      }
    }
  }

  lemma TopShown(stack: seq<HtmlNode>, spine: Spine, more: set<HtmlNode>)
    requires |stack| == |spine| > 1 && stack[|stack| - 1] in more
    requires FrameOk(stack, spine, more, |stack| - 1) && FrameOk(stack, spine, more, |stack| - 2)
    ensures FrameOk(stack[..|stack| - 1], CloseTop(spine), more, |stack| - 2)
  {
    var n := |stack| - 1;
    var top, node := stack[n], stack[n - 1];
    var t := Element(spine[n].tag, spine[n].attrs, spine[n].content);
    assert top.content[..|spine[n].content|] == top.content;
    assert Shows(NodeItem(top), t, more);
    assert CloseTop(spine)[n - 1].content == spine[n - 1].content + [t];
    assert node.content == node.content[..|spine[n - 1].content|] + [NodeItem(top)];
    assert node.content[..|node.content|] == node.content;
  }

  lemma {:induction false} PopToLinked(stack: seq<HtmlNode>, spine: Spine, settled: set<HtmlNode>, k: nat)
    requires Linked(stack, spine, settled) && 0 < k <= |stack|
    ensures Linked(stack[..k], CloseTo(spine, k), settled + SetOf(stack[k..]))
    decreases |stack|
  {
    if k == |stack| {
      assert stack[..k] == stack && settled + SetOf(stack[k..]) == settled;
    } else {
      var n := |stack| - 1;
      PopLinked(stack, spine, settled);
      PopToLinked(stack[..n], CloseTop(spine), settled + {stack[n]}, k);
      assert stack[..n][..k] == stack[..k];
      assert stack[k..] == stack[..n][k..] + [stack[n]];
      assert settled + {stack[n]} + SetOf(stack[..n][k..]) == settled + SetOf(stack[k..]);
    }
  }

  /** Each node's last item is the next node of the stack. */
  ghost predicate RightmostPath(stack: seq<HtmlNode>)
    reads stack
  {
    forall i :: 0 <= i < |stack| - 1 ==>
      stack[i].content != [] && stack[i].content[|stack[i].content| - 1] == NodeItem(stack[i + 1])
  }

  lemma LinkedIsPath(stack: seq<HtmlNode>, spine: Spine, settled: set<HtmlNode>)
    requires Linked(stack, spine, settled)
    ensures RightmostPath(stack)
  {
    forall i | 0 <= i < |stack| - 1
      ensures stack[i].content != [] && stack[i].content[|stack[i].content| - 1] == NodeItem(stack[i + 1])
    {
      assert FrameOk(stack, spine, settled, i);
    }
  }

  /** The root node, with everything below it, is the tree of the spine. */
  lemma LinkedShowsRoot(stack: seq<HtmlNode>, spine: Spine, settled: set<HtmlNode>)
    requires Linked(stack, spine, settled)
    ensures Shows(NodeItem(stack[0]), Root(spine), settled + SetOf(stack))
  {
    PopToLinked(stack, spine, settled, 1);
    CloseToSize(spine, 1);
    var nodes := settled + SetOf(stack[1..]);
    assert FrameOk(stack[..1], CloseTo(spine, 1), nodes, 0);
    var root := stack[0];
    assert root.content[..|root.content|] == root.content;
    ShowsAllMore(root.content, CloseTo(spine, 1)[0].content, nodes, settled + SetOf(stack));
    assert stack == [root] + stack[1..];
  }

  class TreeParser {
    const root: HtmlNode
    var stack: seq<HtmlNode>
    /** The open elements as values, and the nodes that will not change again. */
    ghost var spine: Spine
    ghost var settled: set<HtmlNode>

    ghost predicate Valid()
      reads this, stack, settled
    {
      Linked(stack, spine, settled) && stack[0] == root
    }

    constructor ()
      ensures Valid() && spine == EMPTY && fresh(root) && stack == [root] && settled == {}
    {
      var node := new HtmlNode("[document]", map[]);
      root := node;
      stack := [node];
      spine := EMPTY;
      settled := {};
      new;
      assert FrameOk(stack, spine, settled, 0);
    }

    /** `self._stack[-1].content.append(item)` for an item that is complete. */
    method AppendItem(item: Item, ghost t: Tree, ghost nodes: set<HtmlNode>)
      requires Valid() && Shows(item, t, settled + nodes) && (forall n :: n in nodes ==> n !in stack)
      modifies `spine, `settled, stack[|stack| - 1]
      ensures Valid() && stack == old(stack)
      ensures spine == Append(old(spine), [t]) && settled == old(settled) + nodes
    {
      var top := stack[|stack| - 1];
      ghost var n, more := |stack| - 1, settled + nodes;
      forall i | 0 <= i < |stack| ensures FrameOk(stack, spine, more, i) {
        assert FrameOk(stack, spine, settled, i);
        FrameMore(stack, spine, settled, more, i);
      }
      assert FrameOk(stack, spine, more, n);
      label Before:
      top.content := top.content + [item];
      settled := more;
      spine := Append(spine, [t]);
      assert top.content[..|top.content|] == top.content;
      assert old@Before(top.content)[..|old@Before(top.content)|] == old@Before(top.content);
      forall i | 0 <= i < |stack| ensures FrameOk(stack, spine, settled, i) {
        assert i < n ==> old@Before(FrameOk(stack, spine, more, i));
      }
    }

    /** `handle_starttag`. */
    method HandleStartTag(tag: string, attrs: Attrs)
      requires Valid()
      modifies this, stack[|stack| - 1]
      ensures Valid() && spine == Feed(old(spine), Start(tag, attrs))
      ensures forall n :: n in stack ==> n in old(stack) || fresh(n)
    {
      var node := new HtmlNode(tag, attrs);
      if tag in VOID_ELEMENTS {
        assert Shows(NodeItem(node), Element(tag, attrs, []), settled + {node});
        AppendItem(NodeItem(node), Element(tag, attrs, []), {node});
      } else {
        Push(node);
      }
    }

    /** Append an open node and make it the innermost one. */
    method Push(node: HtmlNode)
      requires Valid() && node !in stack && node !in settled && node.content == []
      modifies `spine, `stack, stack[|stack| - 1]
      ensures Valid() && stack == old(stack) + [node] && spine == old(spine) + [Frame(node.tag, node.attrs, [])]
    {
      var top := stack[|stack| - 1];
      ghost var n := |stack| - 1;
      assert FrameOk(stack, spine, settled, n);
      label Before:
      top.content := top.content + [NodeItem(node)];
      stack := stack + [node];
      spine := spine + [Frame(node.tag, node.attrs, [])];
      assert top.content[..|top.content| - 1] == old@Before(top.content);
      assert old@Before(top.content)[..|old@Before(top.content)|] == old@Before(top.content);
      forall i | 0 <= i < |stack| ensures FrameOk(stack, spine, settled, i) {
        assert i < n ==> old@Before(FrameOk(stack, spine, settled, i));
      }
    }

    /** `handle_startendtag`. */
    method HandleStartEndTag(tag: string, attrs: Attrs)
      requires Valid()
      modifies this, stack[|stack| - 1]
      ensures Valid() && spine == Feed(old(spine), StartEnd(tag, attrs))
      ensures forall n :: n in stack ==> n in old(stack) || fresh(n)
    {
      var node := new HtmlNode(tag, attrs);
      assert Shows(NodeItem(node), Element(tag, attrs, []), settled + {node});
      AppendItem(NodeItem(node), Element(tag, attrs, []), {node});
    }

    /** `handle_data`. */
    method HandleData(data: string)
      requires Valid()
      modifies this, stack[|stack| - 1]
      ensures Valid() && spine == Feed(old(spine), Chars(data))
      ensures forall n :: n in stack ==> n in old(stack) || fresh(n)
    {
      AppendItem(TextItem(data), Data(data), {});
    }

    /** `handle_endtag`: pops through the innermost node of that tag, if there is one below the root. */
    method HandleEndTag(tag: string)
      requires Valid()
      modifies `stack, `spine, `settled
      ensures Valid() && spine == Feed(old(spine), End(tag))
      ensures forall n :: n in stack ==> n in old(stack)
    {
      hide Feed;
      var index := |stack| - 1;
      while index > 0
        invariant 0 <= index < |stack|
        invariant Innermost(spine, tag, |stack|) == Innermost(spine, tag, index + 1)
      {
        assert FrameOk(stack, spine, settled, index);
        if stack[index].tag == tag {
          PopToLinked(stack, spine, settled, index);
          FeedEnd(spine, tag, index);
          settled := settled + SetOf(stack[index..]);
          spine := CloseTo(spine, index);
          stack := stack[..index];
          return;
        }
        index := index - 1;
      }
      FeedEnd(spine, tag, 0);
    }

    /** `feed`: every token in turn. */
    method FeedTokens(tokens: seq<Token>)
      requires Valid()
      modifies this, stack
      ensures Valid() && spine == FeedAll(old(spine), tokens)
    {
      hide Linked, Feed;
      assert tokens[..0] == [];
      for i := 0 to |tokens|
        invariant Valid() && spine == FeedAll(old(spine), tokens[..i])
        invariant forall n :: n in stack ==> n in old(stack) || fresh(n)
      {
        assert tokens[..i + 1][..i] == tokens[..i];
        StackNonEmpty();
        assert stack[|stack| - 1] in stack;
        match tokens[i] {
          case Start(tag, attrs) => HandleStartTag(tag, attrs);
          case StartEnd(tag, attrs) => HandleStartEndTag(tag, attrs);
          case End(tag) => HandleEndTag(tag);
          case Chars(data) => HandleData(data);
        }
      }
      assert tokens[..|tokens|] == tokens;
    }

    lemma StackNonEmpty()
      requires Valid()
      ensures |stack| > 0
    {
    }
  }

  lemma FeedEnd(spine: Spine, tag: string, index: nat)
    requires index == Innermost(spine, tag, |spine|)
    ensures Feed(spine, End(tag)) == if index == 0 then spine else CloseTo(spine, index)
  {
  }

  /** `parse_html` after tokenising: the returned node is the root of exactly the tree of the tokens. */
  method ParseTokens(tokens: seq<Token>) returns (root: HtmlNode, ghost nodes: set<HtmlNode>)
    ensures Shows(NodeItem(root), Parse(tokens), nodes)
  {
    var parser := new TreeParser();
    parser.FeedTokens(tokens);
    LinkedShowsRoot(parser.stack, parser.spine, parser.settled);
    root := parser.root;
    nodes := parser.settled + SetOf(parser.stack);
  }

  /** The text read off the parsed document: the words of all its character data, joined by single spaces. */
  method DocumentText(tokens: seq<Token>) returns (text: string)
    ensures text == Join(WordsOfAll(Texts(TokenMarks(tokens))))
  {
    hide Parse, TextOf, Shows;
    var root, nodes := ParseTokens(tokens);
    text := root.Text(Parse(tokens), nodes);
    TextIsWords(tokens);
  }
}
