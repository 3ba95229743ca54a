/** A page that stands still: a full collection of it returns, and returns exactly what it shows. */
module CollectorStill {
  import opened Support
  import opened Collector
  import opened CollectorComplete

  /* ------------------------- what a still page shows ------------------------- */

  datatype Card = Card(key: Key, html: Html, opening: Opening, links: seq<Html>)

  /** The list of a trade type that a screen shows, and how far it is scrolled. */
  datatype Place = Place(tradeType: TradeType, position: nat)

  /** The cards in view of a trade type's list, position by position. */
  type Views = TradeType -> seq<seq<Card>>

  predicate InView(views: Views, p: Place)
  {
    p.position < |views(p.tradeType)|
  }

  function View(views: Views, p: Place): seq<Card>
    requires InView(views, p)
  {
    views(p.tradeType)[p.position]
  }

  /** The cards of `view` that are new, behind those before. */
  function Appear(before: seq<Card>, view: seq<Card>): seq<Card>
    decreases |view|
  {
    if view == [] then before
    else Appear(if HasKey(before, view[0].key) then before else before + [view[0]], view[1..])
  }

  predicate HasKey(cards: seq<Card>, key: Key)
  {
    exists i :: 0 <= i < |cards| && cards[i].key == key
  }

  /** The cards of the first `n` positions, in the order of their first appearance. */
  function Shown(positions: seq<seq<Card>>, n: nat): seq<Card>
    requires n <= |positions|
  {
    if n == 0 then [] else Appear(Shown(positions, n - 1), positions[n - 1])
  }

  function Cards(views: Views, tt: TradeType): seq<Card>
  {
    Shown(views(tt), |views(tt)|)
  }

  /** The cards that are in scope: all, or the first so many. */
  function Taken(views: Views, scope: Scope, tt: TradeType): seq<Card>
  {
    var all := Cards(views, tt);
    if scope.limit.Some? && scope.limit.value < |all| then all[..scope.limit.value] else all
  }

  /** The answer is `v`, and the place stays. */
  ghost predicate Says<T(!new)>(place: Screen -> Place, s: Screen, answer: Outcome<(Screen, T)>, v: T)
  {
    answer.Done? && answer.value.1 == v && place(answer.value.0) == place(s)
  }

  ghost predicate MovesTo(place: Screen -> Place, answer: Outcome<Screen>, p: Place)
  {
    answer.Done? && place(answer.value) == p
  }

  /** The answers about the card in view at `i`. */
  ghost predicate CardStill(page: Page, place: Screen -> Place, s: Screen, i: nat, c: Card)
  {
    && Says(place, s, page.cardKey(s, i), c.key)
    && Says(place, s, page.cardHtml(s, i), c.html)
    && Says(place, s, page.open(s, i), c.opening)
    && Says(place, s, page.linkCount(s, i), |c.links|)
    && (forall k :: 0 <= k < |c.links| ==> Says(place, s, page.linkRow(s, i, k), c.links[k]))
    && MovesTo(place, page.close(s, i), place(s))
  }

  /** Questions are answered and, but for scrolling and switching, leave the place as it is. */
  ghost predicate ScreenStill(page: Page, views: Views, place: Screen -> Place, s: Screen)
    requires InView(views, place(s))
  {
    var p, tt := place(s), place(s).tradeType;
    && Says(place, s, page.container(s), true)
    && Says(place, s, page.cardCount(s), |View(views, p)|)
    && (forall i :: 0 <= i < |View(views, p)| ==> CardStill(page, place, s, i, View(views, p)[i]))
    && (forall a :: Says(place, s, page.visit(s, a), true))
    && Says(place, s, page.atEnd(s), p.position + 1 == |views(tt)|)
    && Says(place, s, page.displayed(s, tt), |Cards(views, tt)|)
    && (p.position + 1 < |views(tt)| ==> MovesTo(place, page.scroll(s), Place(tt, p.position + 1)))
  }

  ghost predicate StandsStill(page: Page, views: Views, place: Screen -> Place)
  {
    && (forall s {:trigger ScreenStill(page, views, place, s)} :: InView(views, place(s)) ==>
          ScreenStill(page, views, place, s))
    && (forall s, tt :: MovesTo(place, page.switchTo(s, tt), Place(tt, 0)))
  }

  /** The rows of a card: its broker links or, if it has a single link, its HTML. */
  function RowsOf(c: Card): seq<Html>
  {
    if c.opening == SingleLink then [c.html] else c.links
  }

  /** The articles of some rows, in order. */
  function ArticlesIn(parser: Parser, rows: seq<Html>): seq<ArticleId>
    requires forall r :: r in rows ==> parser.article(r).Done?
  {
    seq(|rows|, i requires 0 <= i < |rows| => parser.article(rows[i]).value)
  }

  /** The card is readable and shows as many brokers as it has rows, each with an article of its own. */
  ghost predicate CardOk(parser: Parser, c: Card)
  {
    && parser.readable(c.html) && c.opening != NoLink
    && (forall r :: r in RowsOf(c) ==> parser.article(r).Done?) && (c.opening == Opened ==> "" !in c.links)
    && Distinct(ArticlesIn(parser, RowsOf(c)))
    && (parser.brokers(c.html).Some? ==> parser.brokers(c.html).value == |RowsOf(c)|)
  }

  /** What is collected of a card. */
  function GroupOf(parser: Parser, c: Card): CollectedGroup
    requires forall r :: r in RowsOf(c) ==> parser.article(r).Done?
  {
    CollectedGroup(c.html, RowsOf(c), ArticlesIn(parser, RowsOf(c)), false)
  }

  /* ------------------------- one card ------------------------- */

  /** First card of the view from the `i`-th on whose key was not seen. */
  function FirstNew(view: seq<Card>, seen: set<Key>, i: nat): (k: Option<nat>)
    ensures k.Some? ==> i <= k.value < |view| && view[k.value].key !in seen
    ensures forall x :: i <= x < (if k.Some? then k.value else |view|) ==> view[x].key in seen
    decreases |view| - i
  {
    if i >= |view| then None else if view[i].key in seen then FirstNew(view, seen, i + 1) else Some(i)
  }

  lemma {:induction false} FindCardStill(page: Page, views: Views, place: Screen -> Place, s: Screen, seen: set<Key>,
                                         i: nat)
    requires StandsStill(page, views, place) && InView(views, place(s))
    ensures var view := View(views, place(s));
      var r, k := FindCard(page, s, seen, i, |view|), FirstNew(view, seen, i);
      && r.Done? && place(r.value.0) == place(s)
      && r.value.1 == if k.None? then None else Some((k.value, view[k.value].key))
    decreases |View(views, place(s))| - i
  {
    var view := View(views, place(s));
    if i < |view| {
      assert ScreenStill(page, views, place, s);
      assert CardStill(page, place, s, i, view[i]);
      hide StandsStill, ScreenStill;
      if view[i].key in seen {
        FindCardStill(page, views, place, page.cardKey(s, i).value.0, seen, i + 1);
      }
    }
  }

  /** The rows of the links from the `i`-th on. */
  function LinkRows(parser: Parser, links: seq<Html>, n: nat): seq<Row>
    requires n <= |links| && forall r :: r in links ==> parser.article(r).Done?
  {
    seq(n, k requires 0 <= k < n => Row(parser.article(links[k]).value, links[k]))
  }

  lemma AddNewRow(parser: Parser, links: seq<Html>, i: nat)
    requires i < |links| && forall r :: r in links ==> parser.article(r).Done?
    requires Distinct(ArticlesIn(parser, links))
    ensures AddRow(LinkRows(parser, links, i), Row(parser.article(links[i]).value, links[i]))
         == LinkRows(parser, links, i + 1)
  {
    var rows, id := LinkRows(parser, links, i), parser.article(links[i]).value;
    assert ArticlesIn(parser, links)[i] == id;
    forall k | 0 <= k < i ensures rows[k].id != id {
      assert ArticlesIn(parser, links)[k] == rows[k].id;
    }
  }

  lemma LinkSays(page: Page, views: Views, place: Screen -> Place, s: Screen, card: nat, i: nat)
    requires StandsStill(page, views, place) && InView(views, place(s)) && card < |View(views, place(s))|
    requires i < |View(views, place(s))[card].links|
    ensures Says(place, s, page.linkRow(s, card, i), View(views, place(s))[card].links[i])
  {
    assert ScreenStill(page, views, place, s);
    assert CardStill(page, place, s, card, View(views, place(s))[card]);
  }

  lemma {:induction false} ReadLinksStill(page: Page, parser: Parser, views: Views, place: Screen -> Place, s: Screen,
                                          card: nat, i: nat)
    requires StandsStill(page, views, place) && InView(views, place(s)) && card < |View(views, place(s))|
    requires CardOk(parser, View(views, place(s))[card]) && View(views, place(s))[card].opening == Opened
    requires i <= |View(views, place(s))[card].links|
    ensures var links := View(views, place(s))[card].links;
      var r := ReadLinks(page, parser, s, card, i, |links|, LinkRows(parser, links, i));
      r.Done? && place(r.value.0) == place(s) && r.value.1 == LinkRows(parser, links, |links|)
    decreases |View(views, place(s))[card].links| - i
  {
    var c := View(views, place(s))[card];
    assert forall r :: r in c.links ==> r in RowsOf(c);
    if i < |c.links| {
      LinkSays(page, views, place, s, card, i);
      hide StandsStill;
      AddNewRow(parser, c.links, i);
      hide AddRow, LinkRows;
      ReadLinksStill(page, parser, views, place, page.linkRow(s, card, i).value.0, card, i + 1);
    }
  }

  lemma VisitSays(page: Page, views: Views, place: Screen -> Place, s: Screen, a: ArticleId)
    requires StandsStill(page, views, place) && InView(views, place(s))
    ensures Says(place, s, page.visit(s, a), true)
  {
    assert ScreenStill(page, views, place, s);
  }

  /** Rows whose articles are in scope and unknown are all gathered. */
  lemma {:induction false} VisitRowsStill(page: Page, parser: Parser, scope: Scope, views: Views,
                                          place: Screen -> Place, rows: seq<Html>, i: nat, v: Visited)
    requires StandsStill(page, views, place) && InView(views, place(v.s)) && scope.expected == {} && i <= |rows|
    requires forall r :: r in rows ==> parser.article(r).Done?
    requires Distinct(ArticlesIn(parser, rows))
    requires forall k :: i <= k < |rows| ==> ArticlesIn(parser, rows)[k] !in v.known
    ensures var r, ids := VisitRows(page, parser, scope, rows, i, v), ArticlesIn(parser, rows);
      && r.Done? && place(r.value.s) == place(v.s) && r.value.warned == v.warned
      && r.value.articles == v.articles + ids[i..] && r.value.known == v.known + SetOf(ids[i..])
    decreases |rows| - i
  {
    var ids := ArticlesIn(parser, rows);
    if i < |rows| {
      assert rows[i] in rows && ids[i] == parser.article(rows[i]).value;
      assert ids[i..] == [ids[i]] + ids[i + 1..];
      VisitSays(page, views, place, v.s, ids[i]);
      hide StandsStill;
      var next := Take(v, if scope.details then page.visit(v.s, ids[i]).value.0 else v.s, ids[i]);
      VisitRowsStill(page, parser, scope, views, place, rows, i + 1, next);
      assert SetOf(ids[i..]) == {ids[i]} + SetOf(ids[i + 1..]);
    } else {
      assert ids[i..] == [];
    }
  }

  lemma ExpandedStill(page: Page, parser: Parser, views: Views, place: Screen -> Place, s: Screen, card: nat,
                      rounds: nat)
    requires StandsStill(page, views, place) && InView(views, place(s)) && card < |View(views, place(s))|
    requires CardOk(parser, View(views, place(s))[card]) && View(views, place(s))[card].opening == Opened && rounds > 0
    ensures var c := View(views, place(s))[card];
      var r := ExpandedRows(page, parser, s, card, parser.brokers(c.html), [], rounds);
      r.Done? && place(r.value.0) == place(s) && r.value.1 == LinkRows(parser, c.links, |c.links|)
  {
    var c := View(views, place(s))[card];
    assert ScreenStill(page, views, place, s);
    assert CardStill(page, place, s, card, c);
    hide StandsStill, ScreenStill, CardStill;
    assert LinkRows(parser, c.links, 0) == [];
    ReadLinksStill(page, parser, views, place, page.linkCount(s, card).value.0, card, 0);
    hide ReadLinks;
  }

  lemma HtmlsOfLinks(parser: Parser, links: seq<Html>)
    requires forall r :: r in links ==> parser.article(r).Done?
    ensures Htmls(LinkRows(parser, links, |links|)) == links
  {
  }

  lemma GroupStill(page: Page, parser: Parser, scope: Scope, views: Views, place: Screen -> Place, s: Screen, card: nat,
                   known: set<ArticleId>, rounds: nat)
    requires StandsStill(page, views, place) && InView(views, place(s)) && card < |View(views, place(s))|
    requires CardOk(parser, View(views, place(s))[card]) && scope.expected == {} && rounds > 0
    requires SetOf(ArticlesIn(parser, RowsOf(View(views, place(s))[card]))) !! known
    ensures var c := View(views, place(s))[card];
      var r := CollectGroup(page, parser, scope, s, card, known, rounds);
      && r.Done? && place(r.value.0) == place(s) && r.value.1 == GroupOf(parser, c)
      && r.value.2 == known + SetOf(ArticlesIn(parser, RowsOf(c)))
  {
    var c := View(views, place(s))[card];
    var ids := ArticlesIn(parser, RowsOf(c));
    assert ids[0..] == ids && [] + ids == ids;
    assert forall k :: 0 <= k < |ids| ==> ids[k] in SetOf(ids);
    assert ScreenStill(page, views, place, s) && CardStill(page, place, s, card, c);
    var s1 := page.cardHtml(s, card).value.0;
    assert ScreenStill(page, views, place, s1) && CardStill(page, place, s1, card, c);
    var s2 := page.open(s1, card).value.0;
    hide StandsStill, ScreenStill, CardStill;
    if c.opening == SingleLink {
      VisitRowsStill(page, parser, scope, views, place, [c.html], 0, Visited(s2, [], known, false));
      hide VisitRows, ArticlesIn;
    } else {
      OpenedStill(page, parser, scope, views, place, s2, card, known, rounds);
      hide VisitRows, ExpandedRows, ArticlesIn;
    }
  }

  /** The rows of an opened card are read and visited, and the card is closed. */
  lemma OpenedStill(page: Page, parser: Parser, scope: Scope, views: Views, place: Screen -> Place, s: Screen,
                    card: nat, known: set<ArticleId>, rounds: nat)
    requires StandsStill(page, views, place) && InView(views, place(s)) && card < |View(views, place(s))|
    requires CardOk(parser, View(views, place(s))[card]) && scope.expected == {} && rounds > 0
    requires View(views, place(s))[card].opening == Opened
    requires SetOf(ArticlesIn(parser, RowsOf(View(views, place(s))[card]))) !! known
    ensures var c := View(views, place(s))[card];
      var ids, rows :=
        ArticlesIn(parser, c.links), ExpandedRows(page, parser, s, card, parser.brokers(c.html), [], rounds);
      && rows.Done? && Htmls(rows.value.1) == c.links
      && var v := VisitRows(page, parser, scope, c.links, 0, Visited(rows.value.0, [], known, false));
         && v.Done? && !v.value.warned && v.value.articles == ids && v.value.known == known + SetOf(ids)
         && MovesTo(place, page.close(v.value.s, card), place(s))
  {
    var c := View(views, place(s))[card];
    var ids := ArticlesIn(parser, c.links);
    assert ids[0..] == ids && [] + ids == ids;
    assert forall k :: 0 <= k < |ids| ==> ids[k] in SetOf(ids);
    ExpandedStill(page, parser, views, place, s, card, rounds);
    HtmlsOfLinks(parser, c.links);
    var s3 := ExpandedRows(page, parser, s, card, parser.brokers(c.html), [], rounds).value.0;
    hide ExpandedRows, Htmls, LinkRows;
    VisitRowsStill(page, parser, scope, views, place, c.links, 0, Visited(s3, [], known, false));
    var v := VisitRows(page, parser, scope, c.links, 0, Visited(s3, [], known, false)).value;
    hide VisitRows, ArticlesIn;
    assert ScreenStill(page, views, place, v.s) && CardStill(page, place, v.s, card, c);
  }

  /* ------------------------- first appearances ------------------------- */

  function KeysOf(cards: seq<Card>): set<Key>
  {
    set c | c in cards :: c.key
  }

  lemma KeysMember(cards: seq<Card>, key: Key)
    ensures key in KeysOf(cards) <==> HasKey(cards, key)
  {
    if HasKey(cards, key) {
      var i :| 0 <= i < |cards| && cards[i].key == key;
      assert cards[i] in cards;
    }
  }

  lemma KeysSnoc(cards: seq<Card>, c: Card)
    ensures KeysOf(cards + [c]) == KeysOf(cards) + {c.key}
  {
    assert forall x :: x in cards + [c] <==> x in cards || x == c;
  }

  lemma {:induction false} AppearPrefix(before: seq<Card>, view: seq<Card>)
    ensures before <= Appear(before, view)
    decreases |view|
  {
    if view != [] {
      AppearPrefix(if HasKey(before, view[0].key) then before else before + [view[0]], view[1..]);
    }
  }

  lemma {:induction false} ShownPrefix(positions: seq<seq<Card>>, n: nat, m: nat)
    requires n <= m <= |positions|
    ensures Shown(positions, n) <= Shown(positions, m)
  {
    if n < m {
      ShownPrefix(positions, n, m - 1);
      AppearPrefix(Shown(positions, m - 1), positions[m - 1]);
    }
  }

  /** Taking the first new card early makes no difference. */
  lemma {:induction false} AppearNew(before: seq<Card>, view: seq<Card>, j: nat)
    requires j < |view| && view[j].key !in KeysOf(before) && forall x :: 0 <= x < j ==> view[x].key in KeysOf(before)
    ensures Appear(before + [view[j]], view) == Appear(before, view)
    decreases |view|
  {
    KeysMember(before, view[0].key);
    KeysMember(before + [view[j]], view[0].key);
    KeysSnoc(before, view[j]);
    hide KeysOf, HasKey;
    if j > 0 {
      AppearNew(before, view[1..], j - 1);
    }
  }

  lemma {:induction false} AppearNone(before: seq<Card>, view: seq<Card>)
    requires forall x :: 0 <= x < |view| ==> view[x].key in KeysOf(before)
    ensures Appear(before, view) == before
    decreases |view|
  {
    if view != [] {
      KeysMember(before, view[0].key);
      hide KeysOf, HasKey;
      assert view[0].key in KeysOf(before);
      AppearNone(before, view[1..]);
    }
  }

  predicate KeysDistinct(cards: seq<Card>)
  {
    forall i, k :: 0 <= i < k < |cards| ==> cards[i].key != cards[k].key
  }

  /** What first appearances are: cards in view, no key twice, and no key of a card in view left out. */
  lemma {:induction false} AppearMeaning(before: seq<Card>, view: seq<Card>)
    requires KeysDistinct(before)
    ensures var all := Appear(before, view);
      && KeysDistinct(all)
      && (forall c :: c in all ==> c in before || c in view)
      && (forall c :: c in view ==> HasKey(all, c.key))
      && (forall key :: HasKey(before, key) ==> HasKey(all, key))
    decreases |view|
  {
    if view != [] {
      var next := if HasKey(before, view[0].key) then before else before + [view[0]];
      if HasKey(before, view[0].key) {
        assert next == before;
      } else {
        assert next[|before|].key == view[0].key;
        forall key | HasKey(before, key) ensures HasKey(next, key) {
          var i :| 0 <= i < |before| && before[i].key == key;
          assert next[i].key == key;
        }
      }
      assert HasKey(next, view[0].key);
      AppearMeaning(next, view[1..]);
      assert view == [view[0]] + view[1..];
    }
  }

  /** A list shows every key in view once, by the card that had it first. */
  lemma {:induction false} ShownMeaning(positions: seq<seq<Card>>, n: nat)
    requires n <= |positions|
    ensures var all := Shown(positions, n);
      && KeysDistinct(all)
      && (forall c :: c in all ==> exists p :: 0 <= p < n && c in positions[p])
      && (forall p, c :: 0 <= p < n && c in positions[p] ==> HasKey(all, c.key))
  {
    hide HasKey;
    if n > 0 {
      ShownMeaning(positions, n - 1);
      AppearMeaning(Shown(positions, n - 1), positions[n - 1]);
      hide Appear;
      var less, all := Shown(positions, n - 1), Shown(positions, n);
      forall p, c | 0 <= p < n && c in positions[p] ensures HasKey(all, c.key) {
        if p < n - 1 {
          assert HasKey(less, c.key);
        }
      }
      forall c | c in all ensures exists p :: 0 <= p < n && c in positions[p] {
        if c in less {
          var p :| 0 <= p < n - 1 && c in positions[p];
          assert c in positions[p];
        } else {
          assert c in positions[n - 1];
        }
      }
    }
  }

  /* ------------------------- the scan ------------------------- */

  ghost predicate AllOk(parser: Parser, cards: seq<Card>)
  {
    forall c :: c in cards ==> CardOk(parser, c)
  }

  /** The articles of the cards, in order. */
  ghost function IdsOf(parser: Parser, cards: seq<Card>): seq<ArticleId>
    requires AllOk(parser, cards)
  {
    if cards == [] then []
    else
      assert CardOk(parser, cards[|cards| - 1]);
      IdsOf(parser, cards[..|cards| - 1]) + ArticlesIn(parser, RowsOf(cards[|cards| - 1]))
  }

  ghost function GroupsOf(parser: Parser, cards: seq<Card>): seq<CollectedGroup>
    requires AllOk(parser, cards)
  {
    seq(|cards|, i requires 0 <= i < |cards| => assert CardOk(parser, cards[i]); GroupOf(parser, cards[i]))
  }

  lemma IdsSnoc(parser: Parser, cards: seq<Card>, c: Card)
    requires AllOk(parser, cards + [c])
    ensures AllOk(parser, cards) && CardOk(parser, c)
    ensures IdsOf(parser, cards + [c]) == IdsOf(parser, cards) + ArticlesIn(parser, RowsOf(c))
    ensures GroupsOf(parser, cards + [c]) == GroupsOf(parser, cards) + [GroupOf(parser, c)]
  {
    assert forall x :: x in cards ==> x in cards + [c];
    assert (cards + [c])[..|cards|] == cards;
    hide CardOk, RowsOf, ArticlesIn;
  }

  lemma {:induction false} IdsPrefix(parser: Parser, cards: seq<Card>, all: seq<Card>)
    requires AllOk(parser, all) && cards <= all
    ensures AllOk(parser, cards) && IdsOf(parser, cards) <= IdsOf(parser, all)
  {
    assert forall x :: x in cards ==> x in all;
    hide CardOk, RowsOf, ArticlesIn;
    if cards != all {
      var n := |all| - 1;
      assert all == all[..n] + [all[n]];
      assert cards <= all[..n];
      IdsPrefix(parser, cards, all[..n]);
    }
  }

  lemma SetConcat<T>(a: seq<T>, b: seq<T>)
    ensures SetOf(a + b) == SetOf(a) + SetOf(b)
  {
  }

  lemma PartsApart(ids: seq<ArticleId>, next: seq<ArticleId>, all: seq<ArticleId>)
    requires ids + next <= all && Distinct(all)
    ensures Distinct(next) && SetOf(next) !! SetOf(ids)
  {
    assert forall i :: 0 <= i < |ids| ==> ids[i] == all[i];
    assert forall i :: 0 <= i < |next| ==> next[i] == all[|ids| + i];
    forall a | a in ids ensures a !in next {
      var i :| 0 <= i < |ids| && ids[i] == a;
    }
  }

  /** The next card brings articles that are new. */
  lemma NextIds(parser: Parser, done: seq<Card>, c: Card, all: seq<Card>, known: set<ArticleId>)
    requires AllOk(parser, all) && done + [c] <= all && Distinct(IdsOf(parser, all))
    requires SetOf(IdsOf(parser, all)) !! known
    ensures AllOk(parser, done) && CardOk(parser, c)
    ensures SetOf(ArticlesIn(parser, RowsOf(c))) !! known + SetOf(IdsOf(parser, done))
  {
    IdsPrefix(parser, done + [c], all);
    IdsSnoc(parser, done, c);
    hide IdsOf, CardOk, ArticlesIn, RowsOf, AllOk;
    var ids, more, whole := IdsOf(parser, done), ArticlesIn(parser, RowsOf(c)), IdsOf(parser, all);
    hide Distinct, SetOf;
    PartsApart(ids, more, whole);
    PartWithin(ids + more, whole);
    SetConcat(ids, more);
  }

  lemma PartWithin(a: seq<ArticleId>, b: seq<ArticleId>)
    requires a <= b
    ensures SetOf(a) <= SetOf(b)
  {
    forall x | x in a ensures x in b {
      var i :| 0 <= i < |a| && a[i] == x;
      assert b[i] == x;
    }
  }

  /** The scan has collected exactly the cards `done`, and has those of the view at its place still to go through. */
  ghost predicate Scanned(parser: Parser, views: Views, place: Screen -> Place, tt: TradeType, known: set<ArticleId>,
                          done: seq<Card>, c: Scan)
  {
    && place(c.s).tradeType == tt && InView(views, place(c.s)) && AllOk(parser, done)
    && c.groups == GroupsOf(parser, done) && c.seen == KeysOf(done)
    && c.known == known + SetOf(IdsOf(parser, done))
    && Appear(done, View(views, place(c.s))) == Shown(views(tt), place(c.s).position + 1)
  }

  /** What the theorem asks of the list of a trade type. */
  ghost predicate ListOk(parser: Parser, views: Views, scope: Scope, tt: TradeType, known: set<ArticleId>)
  {
    var taken := Taken(views, scope, tt);
    && views(tt) != [] && AllOk(parser, taken)
    && Distinct(IdsOf(parser, taken)) && SetOf(IdsOf(parser, taken)) !! known
  }

  lemma DonePrefix(views: Views, p: Place, done: seq<Card>)
    requires InView(views, p) && Appear(done, View(views, p)) == Shown(views(p.tradeType), p.position + 1)
    ensures done <= Cards(views, p.tradeType)
  {
    AppearPrefix(done, View(views, p));
    ShownPrefix(views(p.tradeType), p.position + 1, |views(p.tradeType)|);
    hide Appear, Shown;
  }

  /** The card that is found is the next one shown. */
  lemma NextCard(views: Views, p: Place, done: seq<Card>, j: nat)
    requires InView(views, p) && Appear(done, View(views, p)) == Shown(views(p.tradeType), p.position + 1)
    requires FirstNew(View(views, p), KeysOf(done), 0) == Some(j)
    ensures var next := done + [View(views, p)[j]];
      && Appear(next, View(views, p)) == Shown(views(p.tradeType), p.position + 1)
      && next <= Cards(views, p.tradeType) && KeysOf(next) == KeysOf(done) + {View(views, p)[j].key}
  {
    hide Appear, Shown, KeysOf;
    AppearNew(done, View(views, p), j);
    KeysSnoc(done, View(views, p)[j]);
    DonePrefix(views, p, done + [View(views, p)[j]]);
  }

  lemma NextScanned(parser: Parser, views: Views, place: Screen -> Place, tt: TradeType, known: set<ArticleId>,
                    done: seq<Card>, card: Card, c: Scan, c': Scan)
    requires AllOk(parser, done + [card]) && CardOk(parser, card)
    requires Scanned(parser, views, place, tt, known, done, c) && place(c'.s) == place(c.s)
    requires c' == Scan(c'.s, c.seen + {card.key}, c.groups + [GroupOf(parser, card)],
                        c.known + SetOf(ArticlesIn(parser, RowsOf(card))), c.start, c.latest)
    requires KeysOf(done + [card]) == KeysOf(done) + {card.key}
    requires Appear(done + [card], View(views, place(c.s))) == Shown(views(tt), place(c.s).position + 1)
    ensures Scanned(parser, views, place, tt, known, done + [card], c')
  {
    IdsSnoc(parser, done, card);
    SetConcat(IdsOf(parser, done), ArticlesIn(parser, RowsOf(card)));
    hide Appear, Shown, KeysOf, IdsOf, GroupsOf, CardOk, AllOk, RowsOf, ArticlesIn, GroupOf, SetOf;
  }

  /** What is in scope of the cards collected so far. */
  lemma TakenSoFar(views: Views, scope: Scope, tt: TradeType, done: seq<Card>)
    ensures Taken(views, scope, tt) <= Cards(views, tt)
    ensures ShouldScan(scope, |done|) && done == Cards(views, tt) ==> done == Taken(views, scope, tt)
    ensures !ShouldScan(scope, |done|) && done <= Taken(views, scope, tt) ==> done == Taken(views, scope, tt)
    ensures done <= Taken(views, scope, tt) ==> done <= Cards(views, tt)
  {
    hide Cards;
  }

  lemma TakenNext(views: Views, scope: Scope, tt: TradeType, done: seq<Card>, c: Card)
    requires ShouldScan(scope, |done|) && done + [c] <= Cards(views, tt)
    ensures done + [c] <= Taken(views, scope, tt)
  {
    hide Cards;
  }

  /** An iteration that finds a card collects it. */
  lemma CardStep(page: Page, parser: Parser, scope: Scope, views: Views, place: Screen -> Place, tt: TradeType,
                 known: set<ArticleId>, done: seq<Card>, c: Scan, rounds: nat, j: nat)
    requires StandsStill(page, views, place) && scope.expected == {} && rounds > 0
    requires ListOk(parser, views, scope, tt, known)
    requires Scanned(parser, views, place, tt, known, done, c) && ShouldScan(scope, |c.groups|)
    requires FirstNew(View(views, place(c.s)), c.seen, 0) == Some(j)
    ensures var m, next := ScanMove(page, parser, scope, tt, c, rounds), done + [View(views, place(c.s))[j]];
      && m.Done? && m.value.Next? && Scanned(parser, views, place, tt, known, next, m.value.scan)
      && next <= Taken(views, scope, tt) && place(m.value.scan.s) == place(c.s) && m.value.scan.latest == c.latest
  {
    var card, taken := View(views, place(c.s))[j], Taken(views, scope, tt);
    assert ScreenStill(page, views, place, c.s);
    var s1 := page.cardCount(c.s).value.0;
    assert c.seen == KeysOf(done) && place(c.s) == Place(tt, place(c.s).position);
    assert AllOk(parser, taken) && Distinct(IdsOf(parser, taken)) && SetOf(IdsOf(parser, taken)) !! known;
    assert |c.groups| == |done|;
    hide StandsStill, ScreenStill, Appear, Shown, KeysOf, IdsOf, GroupsOf, CardOk, AllOk, Cards;
    hide FirstNew, RowsOf, Distinct;
    hide ScanMove, ArticlesIn, GroupOf, Taken, ShouldScan;
    NextCard(views, place(c.s), done, j);
    TakenNext(views, scope, tt, done, card);
    NextIds(parser, done, card, taken, known);
    IdsPrefix(parser, done + [card], taken);
    FoundStep(page, parser, scope, views, place, tt, c, s1, rounds, j);
    var move := ScanMove(page, parser, scope, tt, c, rounds);
    NextScanned(parser, views, place, tt, known, done, card, c, move.value.scan);
  }

  lemma FoundStep(page: Page, parser: Parser, scope: Scope, views: Views, place: Screen -> Place, tt: TradeType,
                  c: Scan, s1: Screen, rounds: nat, j: nat)
    requires StandsStill(page, views, place) && scope.expected == {} && ShouldScan(scope, |c.groups|) && rounds > 0
    requires InView(views, place(c.s)) && place(s1) == place(c.s)
    requires page.cardCount(c.s) == Done((s1, |View(views, place(c.s))|))
    requires FirstNew(View(views, place(c.s)), c.seen, 0) == Some(j)
    requires CardOk(parser, View(views, place(c.s))[j])
    requires SetOf(ArticlesIn(parser, RowsOf(View(views, place(c.s))[j]))) !! c.known
    ensures var m, card := ScanMove(page, parser, scope, tt, c, rounds), View(views, place(c.s))[j];
      && m.Done? && m.value.Next? && place(m.value.scan.s) == place(c.s)
      && m.value.scan == Scan(m.value.scan.s, c.seen + {card.key}, c.groups + [GroupOf(parser, card)],
                              c.known + SetOf(ArticlesIn(parser, RowsOf(card))), c.start, c.latest)
  {
    FindCardStill(page, views, place, s1, c.seen, 0);
    var s2 := FindCard(page, s1, c.seen, 0, |View(views, place(c.s))|).value.0;
    GroupStill(page, parser, scope, views, place, s2, j, c.known, rounds);
    hide StandsStill, FindCard, CollectGroup, CardOk, RowsOf, ArticlesIn, GroupOf, FirstNew, EndOfCards;
  }

  /** The count that a scan returns: in full scope what the page displays, else what it was given. */
  function Displayed(views: Views, scope: Scope, tt: TradeType, given: nat): nat
  {
    if FullScope(scope) then |Cards(views, tt)| else given
  }

  /** What an iteration that finds no card asks and is told. */
  lemma NoneFound(page: Page, parser: Parser, scope: Scope, views: Views, place: Screen -> Place, tt: TradeType,
                  c: Scan, rounds: nat)
    requires StandsStill(page, views, place) && ShouldScan(scope, |c.groups|) && InView(views, place(c.s))
    requires place(c.s).tradeType == tt && |c.groups| <= |Cards(views, tt)|
    requires FirstNew(View(views, place(c.s)), c.seen, 0) == None
    requires place(c.s).position + 1 == |views(tt)| ==> |c.groups| == |Cards(views, tt)|
    ensures var m, p := ScanMove(page, parser, scope, tt, c, rounds), place(c.s);
      && m.Done?
      && (if p.position + 1 == |views(tt)|
          then m.value.Return?
            && m.value.scan == c.(s := m.value.scan.s, latest := Displayed(views, scope, tt, c.latest))
          else && m.value.Next? && m.value.scan == c.(s := m.value.scan.s)
               && place(m.value.scan.s) == Place(tt, p.position + 1))
  {
    var p := place(c.s);
    assert ScreenStill(page, views, place, c.s);
    var s1 := page.cardCount(c.s).value.0;
    FindCardStill(page, views, place, s1, c.seen, 0);
    var s2 := FindCard(page, s1, c.seen, 0, |View(views, p)|).value.0;
    assert ScreenStill(page, views, place, s2);
    var s3 := page.atEnd(s2).value.0;
    assert ScreenStill(page, views, place, s3);
    assert p == Place(tt, p.position);
    hide StandsStill, ScreenStill, FindCard, FirstNew, CollectGroup, Cards;
  }

  /** With nothing new in view, what was collected is what was shown so far. */
  lemma NothingNew(parser: Parser, views: Views, place: Screen -> Place, tt: TradeType, known: set<ArticleId>,
                   done: seq<Card>, c: Scan)
    requires Scanned(parser, views, place, tt, known, done, c)
    requires FirstNew(View(views, place(c.s)), c.seen, 0) == None
    ensures done == Shown(views(tt), place(c.s).position + 1) && |c.groups| == |done|
  {
    AppearNone(done, View(views, place(c.s)));
    hide Appear, KeysOf, IdsOf, AllOk, Shown;
  }

  lemma NextPosition(parser: Parser, views: Views, place: Screen -> Place, tt: TradeType, known: set<ArticleId>,
                     done: seq<Card>, c: Scan, c': Scan)
    requires Scanned(parser, views, place, tt, known, done, c) && done == Shown(views(tt), place(c.s).position + 1)
    requires place(c.s).position + 1 < |views(tt)| && c' == c.(s := c'.s)
    requires place(c'.s) == Place(tt, place(c.s).position + 1)
    ensures Scanned(parser, views, place, tt, known, done, c')
  {
    hide Appear, KeysOf, IdsOf, AllOk;
  }

  lemma ScannedParts(parser: Parser, views: Views, place: Screen -> Place, tt: TradeType, known: set<ArticleId>,
                     done: seq<Card>, c: Scan)
    requires Scanned(parser, views, place, tt, known, done, c)
    ensures place(c.s).tradeType == tt && InView(views, place(c.s)) && place(c.s).position < |views(tt)|
    ensures AllOk(parser, done) && c.groups == GroupsOf(parser, done)
    ensures c.known == known + SetOf(IdsOf(parser, done))
  {
    hide Appear, KeysOf, IdsOf, AllOk, Shown, GroupsOf;
  }

  /** An iteration that finds no card moves to the next position, or returns with all cards at the last. */
  lemma EndStep(page: Page, parser: Parser, scope: Scope, views: Views, place: Screen -> Place, tt: TradeType,
                known: set<ArticleId>, done: seq<Card>, c: Scan, rounds: nat)
    requires StandsStill(page, views, place) && done <= Cards(views, tt)
    requires Scanned(parser, views, place, tt, known, done, c) && ShouldScan(scope, |c.groups|)
    requires FirstNew(View(views, place(c.s)), c.seen, 0) == None
    ensures var m, p := ScanMove(page, parser, scope, tt, c, rounds), place(c.s);
      && m.Done?
      && (if p.position + 1 == |views(tt)|
          then && m.value.Return? && done == Cards(views, tt)
               && m.value.scan == c.(s := m.value.scan.s, latest := Displayed(views, scope, tt, c.latest))
          else && m.value.Next? && place(m.value.scan.s) == Place(tt, p.position + 1)
               && m.value.scan.latest == c.latest && Scanned(parser, views, place, tt, known, done, m.value.scan))
  {
    ScannedParts(parser, views, place, tt, known, done, c);
    NothingNew(parser, views, place, tt, known, done, c);
    assert place(c.s).position + 1 == |views(tt)| ==> done == Cards(views, tt);
    hide *;
    NoneFound(page, parser, scope, views, place, tt, c, rounds);
    if place(c.s).position + 1 != |views(tt)| {
      NextPosition(parser, views, place, tt, known, done, c, ScanMove(page, parser, scope, tt, c, rounds).value.scan);
    }
  }

  lemma ScanUnfolds(page: Page, parser: Parser, scope: Scope, tt: TradeType, c: Scan, rounds: nat, fuel: nat)
    requires fuel > 0 && ScanMove(page, parser, scope, tt, c, rounds).Done?
    ensures var m := ScanMove(page, parser, scope, tt, c, rounds).value;
      ScanFrom(page, parser, scope, tt, c, rounds, fuel) ==
        if m.Return? then Done(m.scan) else ScanFrom(page, parser, scope, tt, m.scan, rounds, fuel - 1)
  {
    hide ScanMove;
  }

  lemma LimitReached(page: Page, parser: Parser, scope: Scope, tt: TradeType, c: Scan, rounds: nat)
    requires !ShouldScan(scope, |c.groups|)
    ensures ScanMove(page, parser, scope, tt, c, rounds) == Done(Return(c))
  {
  }

  lemma GroupCount(parser: Parser, cards: seq<Card>)
    requires AllOk(parser, cards)
    ensures |GroupsOf(parser, cards)| == |cards|
  {
  }

  /** What a scan that returns has collected. */
  ghost predicate ScanDone(parser: Parser, views: Views, scope: Scope, tt: TradeType, known: set<ArticleId>, given: nat,
                           r: Scan)
  {
    var taken := Taken(views, scope, tt);
    && AllOk(parser, taken) && r.groups == GroupsOf(parser, taken) && r.known == known + SetOf(IdsOf(parser, taken))
    && r.latest == Displayed(views, scope, tt, given)
  }

  lemma DoneWith(parser: Parser, views: Views, scope: Scope, place: Screen -> Place, tt: TradeType,
                 known: set<ArticleId>, done: seq<Card>, c: Scan, r: Scan)
    requires Scanned(parser, views, place, tt, known, done, c) && done == Taken(views, scope, tt)
    requires r.groups == c.groups && r.known == c.known && r.latest == Displayed(views, scope, tt, c.latest)
    ensures ScanDone(parser, views, scope, tt, known, c.latest, r)
  {
    hide Appear, KeysOf, IdsOf, AllOk, Shown, GroupsOf, Taken, Displayed;
  }

  lemma LimitDisplayed(views: Views, scope: Scope, tt: TradeType, c: Scan)
    requires !ShouldScan(scope, |c.groups|)
    ensures Displayed(views, scope, tt, c.latest) == c.latest
  {
  }

  /** One iteration: the scan is done, or goes on from where less is left. */
  lemma ScanStep(page: Page, parser: Parser, scope: Scope, views: Views, place: Screen -> Place, tt: TradeType,
                 known: set<ArticleId>, done: seq<Card>, c: Scan, rounds: nat)
    returns (done': seq<Card>)
    requires StandsStill(page, views, place) && scope.expected == {} && rounds > 0
    requires ListOk(parser, views, scope, tt, known)
    requires Scanned(parser, views, place, tt, known, done, c) && done <= Taken(views, scope, tt)
    ensures var m := ScanMove(page, parser, scope, tt, c, rounds);
      && m.Done?
      && (if m.value.Return? then ScanDone(parser, views, scope, tt, known, c.latest, m.value.scan)
          else && Scanned(parser, views, place, tt, known, done', m.value.scan) && done' <= Taken(views, scope, tt)
               && m.value.scan.latest == c.latest
               && |done'| + place(m.value.scan.s).position == |done| + place(c.s).position + 1)
  {
    hide *;
    TakenSoFar(views, scope, tt, done);
    ScannedParts(parser, views, place, tt, known, done, c);
    GroupCount(parser, done);
    done' := done;
    if !ShouldScan(scope, |c.groups|) {
      LimitReached(page, parser, scope, tt, c, rounds);
      LimitDisplayed(views, scope, tt, c);
      DoneWith(parser, views, scope, place, tt, known, done, c, c);
    } else {
      var k := FirstNew(View(views, place(c.s)), c.seen, 0);
      if k.Some? {
        CardStep(page, parser, scope, views, place, tt, known, done, c, rounds, k.value);
        done' := done + [View(views, place(c.s))[k.value]];
      } else {
        EndStep(page, parser, scope, views, place, tt, known, done, c, rounds);
        var m := ScanMove(page, parser, scope, tt, c, rounds).value;
        if m.Return? {
          DoneWith(parser, views, scope, place, tt, known, done, c, m.scan);
        }
      }
    }
  }

  /** The scan of a list that stands still returns with all its cards that are in scope. */
  lemma {:induction false} ScanStill(page: Page, parser: Parser, scope: Scope, views: Views, place: Screen -> Place,
                                     tt: TradeType, known: set<ArticleId>, done: seq<Card>, c: Scan, rounds: nat,
                                     fuel: nat)
    requires StandsStill(page, views, place) && scope.expected == {} && rounds > 0
    requires ListOk(parser, views, scope, tt, known)
    requires Scanned(parser, views, place, tt, known, done, c) && done <= Taken(views, scope, tt)
    requires fuel >= (|Cards(views, tt)| - |done|) + (|views(tt)| - place(c.s).position)
    ensures var r := ScanFrom(page, parser, scope, tt, c, rounds, fuel);
      r.Done? && ScanDone(parser, views, scope, tt, known, c.latest, r.value)
    decreases fuel
  {
    hide *;
    TakenSoFar(views, scope, tt, done);
    ScannedParts(parser, views, place, tt, known, done, c);
    var done' := ScanStep(page, parser, scope, views, place, tt, known, done, c, rounds);
    ScanUnfolds(page, parser, scope, tt, c, rounds, fuel);
    var m := ScanMove(page, parser, scope, tt, c, rounds).value;
    if m.Next? {
      ScanStill(page, parser, scope, views, place, tt, known, done', m.scan, rounds, fuel - 1);
    }
  }

  lemma ListParts(parser: Parser, views: Views, scope: Scope, tt: TradeType, known: set<ArticleId>)
    requires ListOk(parser, views, scope, tt, known)
    ensures views(tt) != [] && AllOk(parser, Taken(views, scope, tt))
  {
  }

  /* ------------------------- the payload ------------------------- */

  lemma {:induction false} SetSize<T>(s: seq<T>)
    requires Distinct(s)
    ensures |SetOf(s)| == |s|
  {
    if s != [] {
      var n := |s| - 1;
      SetSize(s[..n]);
      assert s == s[..n] + [s[n]];
      assert SetOf(s) == SetOf(s[..n]) + {s[n]};
    }
  }

  /** The card is collected as completely as it is displayed. */
  lemma GroupWhole(parser: Parser, c: Card)
    requires CardOk(parser, c)
    ensures var g := GroupOf(parser, c);
      parser.readable(g.html) && !g.warned && |g.articles| == ExpectedBrokers(parser, g)
  {
    var ids := ArticlesIn(parser, RowsOf(c));
    SetSize(ids);
    var rows := RowsOf(c);
    forall a ensures a in RowIds(parser, rows) <==> a in SetOf(ids) {
      if a in SetOf(ids) {
        var k :| 0 <= k < |ids| && ids[k] == a;
        assert rows[k] in rows;
      }
      if a in RowIds(parser, rows) {
        var r :| r in rows && parser.article(r).Done? && parser.article(r).value == a;
        var k :| 0 <= k < |rows| && rows[k] == r;
        assert ids[k] == a;
      }
    }
    assert RowIds(parser, rows) == SetOf(ids);
  }

  lemma {:induction false} AssembleStill(parser: Parser, scope: Scope, tt: TradeType, cards: seq<Card>, i: nat,
                                         listings: seq<ListingDetail>)
    requires AllOk(parser, cards) && i <= |cards|
    ensures var groups := GroupsOf(parser, cards);
      Assemble(parser, scope, tt, groups, i, listings) == Done(listings + Tagged(tt, groups[i..]))
    decreases |cards| - i
  {
    var groups := GroupsOf(parser, cards);
    if i < |cards| {
      assert CardOk(parser, cards[i]) && groups[i] == GroupOf(parser, cards[i]);
      GroupWhole(parser, cards[i]);
      hide ExpectedBrokers, CardOk, AllOk, GroupsOf, GroupOf;
      var next, rest := [ListingDetail(tt, groups[i])], Tagged(tt, groups[i + 1..]);
      AssembleStill(parser, scope, tt, cards, i + 1, listings + next);
      assert Tagged(tt, groups[i..]) == next + rest;
      assert listings + next + rest == listings + (next + rest);
    } else {
      assert Tagged(tt, groups[i..]) == [] && listings + [] == listings;
    }
  }

  /** The count that the panel showed for a trade type. */
  function CountOf(shown: map<TradeType, nat>, tt: TradeType): nat
  {
    if tt in shown then shown[tt] else 0
  }

  /** One trade type is collected whole. */
  lemma TypeStill(page: Page, parser: Parser, scope: Scope, views: Views, place: Screen -> Place, tt: TradeType,
                  c: Collected, rounds: nat, fuel: nat)
    requires StandsStill(page, views, place) && scope.expected == {} && rounds > 0
    requires ListOk(parser, views, scope, tt, c.known) && fuel >= |Cards(views, tt)| + |views(tt)|
    ensures var r, taken := CollectType(page, parser, scope, tt, c, rounds, fuel), Taken(views, scope, tt);
      && AllOk(parser, taken)
      && r.Done? && r.value.listings == c.listings + Tagged(tt, GroupsOf(parser, taken))
      && r.value.known == c.known + SetOf(IdsOf(parser, taken))
      && r.value.counts == c.counts[tt := Displayed(views, scope, tt, CountOf(c.counts, tt))]
  {
    var taken, shown := Taken(views, scope, tt), CountOf(c.counts, tt);
    ListParts(parser, views, scope, tt, c.known);
    var s1 := page.switchTo(c.s, tt).value;
    assert MovesTo(place, page.switchTo(c.s, tt), Place(tt, 0));
    assert ScreenStill(page, views, place, s1);
    var start := Scan(page.container(s1).value.0, {}, [], c.known, 0, shown);
    hide StandsStill, ScreenStill, ListOk;
    StartScanned(parser, views, place, tt, c.known, start);
    ScanStill(page, parser, scope, views, place, tt, c.known, [], start, rounds, fuel);
    AssembleStill(parser, scope, tt, taken, 0, c.listings);
    assert GroupsOf(parser, taken)[0..] == GroupsOf(parser, taken);
    GroupCount(parser, taken);
    assert FullScope(scope) ==> Displayed(views, scope, tt, shown) == |taken|;
    hide ScanFrom, Assemble, Cards, AllOk, GroupsOf, IdsOf, Scanned, Tagged, Taken, Displayed;
  }

  lemma StartScanned(parser: Parser, views: Views, place: Screen -> Place, tt: TradeType, known: set<ArticleId>,
                     c: Scan)
    requires place(c.s) == Place(tt, 0) && views(tt) != [] && c.seen == {} && c.groups == [] && c.known == known
    ensures Scanned(parser, views, place, tt, known, [], c)
  {
    assert Shown(views(tt), 0) == [];
  }

  ghost predicate ListsOk(parser: Parser, views: Views, scope: Scope, types: seq<TradeType>)
  {
    forall tt :: tt in types ==> views(tt) != [] && AllOk(parser, Taken(views, scope, tt))
  }

  /** All articles of the lists of some trade types. */
  ghost function TypesIds(parser: Parser, views: Views, scope: Scope, types: seq<TradeType>): seq<ArticleId>
    requires ListsOk(parser, views, scope, types)
  {
    if types == [] then []
    else TypesIds(parser, views, scope, types[..|types| - 1]) + IdsOf(parser, Taken(views, scope, types[|types| - 1]))
  }

  /** One listing per card, list by list. */
  ghost function ListingsOf(parser: Parser, views: Views, scope: Scope, types: seq<TradeType>): seq<ListingDetail>
    requires ListsOk(parser, views, scope, types)
  {
    if types == [] then []
    else
      var tt := types[|types| - 1];
      ListingsOf(parser, views, scope, types[..|types| - 1]) + Tagged(tt, GroupsOf(parser, Taken(views, scope, tt)))
  }

  function CountsOf(views: Views, scope: Scope, types: seq<TradeType>, shown: map<TradeType, nat>): map<TradeType, nat>
  {
    shown + map tt | tt in types :: Displayed(views, scope, tt, CountOf(shown, tt))
  }

  /** After the first `k` trade types. */
  ghost predicate TypesDone(parser: Parser, views: Views, scope: Scope, types: seq<TradeType>,
                            shown: map<TradeType, nat>, k: nat, c: Collected)
    requires k <= |types| && ListsOk(parser, views, scope, types)
  {
    && c.listings == ListingsOf(parser, views, scope, types[..k])
    && c.known == SetOf(TypesIds(parser, views, scope, types[..k]))
    && c.counts == CountsOf(views, scope, types[..k], shown)
  }

  lemma TypesSnoc(parser: Parser, views: Views, scope: Scope, types: seq<TradeType>, k: nat)
    requires k < |types| && ListsOk(parser, views, scope, types)
    ensures var less, more, all := types[..k], types[..k + 1], Taken(views, scope, types[k]);
      && AllOk(parser, all)
      && TypesIds(parser, views, scope, more) == TypesIds(parser, views, scope, less) + IdsOf(parser, all)
      && ListingsOf(parser, views, scope, more)
        == ListingsOf(parser, views, scope, less) + Tagged(types[k], GroupsOf(parser, all))
  {
    var more, less := types[..k + 1], types[..k];
    assert more[..|more| - 1] == less && more[|more| - 1] == types[k] && more == less + [types[k]];
    hide Cards, Taken, Displayed, GroupsOf, IdsOf, Tagged, AllOk;
  }

  lemma CountsSnoc(views: Views, scope: Scope, types: seq<TradeType>, k: nat, shown: map<TradeType, nat>)
    requires k < |types|
    ensures CountsOf(views, scope, types[..k + 1], shown)
         == CountsOf(views, scope, types[..k], shown)
            [types[k] := Displayed(views, scope, types[k], CountOf(shown, types[k]))]
  {
    assert types[..k + 1] == types[..k] + [types[k]];
    hide Cards, Taken, Displayed;
  }

  lemma OneMoreType(parser: Parser, views: Views, scope: Scope, types: seq<TradeType>, shown: map<TradeType, nat>,
                    k: nat, c: Collected, c': Collected)
    requires k < |types| && ListsOk(parser, views, scope, types) && TypesDone(parser, views, scope, types, shown, k, c)
    requires var all := Taken(views, scope, types[k]);
      && c'.listings == c.listings + Tagged(types[k], GroupsOf(parser, all))
      && c'.known == c.known + SetOf(IdsOf(parser, all))
      && c'.counts == c.counts[types[k] := Displayed(views, scope, types[k], CountOf(c.counts, types[k]))]
    ensures TypesDone(parser, views, scope, types, shown, k + 1, c')
  {
    TypesSnoc(parser, views, scope, types, k);
    CountsSnoc(views, scope, types, k, shown);
    SetConcat(TypesIds(parser, views, scope, types[..k]), IdsOf(parser, Taken(views, scope, types[k])));
    hide Cards, Taken, Displayed, GroupsOf, IdsOf, Tagged, AllOk, ListsOk, TypesIds, ListingsOf, CountsOf, SetOf;
  }

  lemma {:induction false} TypesPrefix(parser: Parser, views: Views, scope: Scope, types: seq<TradeType>, k: nat)
    requires k <= |types| && ListsOk(parser, views, scope, types)
    ensures TypesIds(parser, views, scope, types[..k]) <= TypesIds(parser, views, scope, types)
  {
    if k < |types| {
      var n := |types| - 1;
      TypesPrefix(parser, views, scope, types[..n], k);
      assert types[..n][..k] == types[..k];
    } else {
      assert types[..k] == types;
    }
  }

  lemma NextListParts(parser: Parser, views: Views, scope: Scope, types: seq<TradeType>, k: nat)
    requires k < |types| && ListsOk(parser, views, scope, types)
    ensures views(types[k]) != [] && AllOk(parser, Taken(views, scope, types[k]))
  {
    hide Cards, Taken, Displayed, AllOk;
  }

  /** The articles of the next trade type are new. */
  lemma NextListOk(parser: Parser, views: Views, scope: Scope, types: seq<TradeType>, k: nat)
    requires k < |types| && ListsOk(parser, views, scope, types) && Distinct(TypesIds(parser, views, scope, types))
    ensures ListsOk(parser, views, scope, types[..k]) && ListsOk(parser, views, scope, types[..k + 1])
    ensures ListOk(parser, views, scope, types[k], SetOf(TypesIds(parser, views, scope, types[..k])))
  {
    hide Cards, Taken, Displayed, IdsOf, AllOk, TypesIds, Distinct, SetOf;
    TypesPrefix(parser, views, scope, types, k + 1);
    TypesSnoc(parser, views, scope, types, k);
    NextListParts(parser, views, scope, types, k);
    PartsApart(TypesIds(parser, views, scope, types[..k]), IdsOf(parser, Taken(views, scope, types[k])),
               TypesIds(parser, views, scope, types));
  }

  lemma {:induction false} TypesStill(page: Page, parser: Parser, scope: Scope, views: Views, place: Screen -> Place,
                                      types: seq<TradeType>, shown: map<TradeType, nat>, k: nat, c: Collected,
                                      rounds: nat, fuel: nat)
    requires StandsStill(page, views, place) && scope.expected == {} && rounds > 0
    requires k <= |types| && ListsOk(parser, views, scope, types) && Distinct(TypesIds(parser, views, scope, types))
    requires forall tt :: tt in types ==> fuel >= |Cards(views, tt)| + |views(tt)|
    requires TypesDone(parser, views, scope, types, shown, k, c)
    ensures var r := CollectFrom(page, parser, scope, types, k, c, rounds, fuel);
      r.Done? && TypesDone(parser, views, scope, types, shown, |types|, r.value)
    decreases |types| - k
  {
    if k < |types| {
      var tt := types[k];
      NextListOk(parser, views, scope, types, k);
      hide StandsStill, ListsOk, ListOk, Cards, Taken, Displayed, CollectType, TypesIds, ListingsOf, CountsOf, Distinct;
      TypeStill(page, parser, scope, views, place, tt, c, rounds, fuel);
      var next := CollectType(page, parser, scope, tt, c, rounds, fuel).value;
      OneMoreType(parser, views, scope, types, shown, k, c, next);
      hide TypesDone;
      TypesStill(page, parser, scope, views, place, types, shown, k + 1, next, rounds, fuel);
    }
  }

  lemma {:induction false} NoneWarned(parser: Parser, views: Views, scope: Scope, types: seq<TradeType>)
    requires ListsOk(parser, views, scope, types)
    ensures !AnyWarned(ListingsOf(parser, views, scope, types))
  {
    hide Cards, Taken, Displayed, AllOk;
    if types != [] {
      var n := |types| - 1;
      NoneWarned(parser, views, scope, types[..n]);
      var less, more :=
        ListingsOf(parser, views, scope, types[..n]), Tagged(types[n], GroupsOf(parser, Taken(views, scope, types[n])));
      var all: seq<ListingDetail> := less + more;
      forall i | 0 <= i < |all| ensures !all[i].group.warned {
        assert all[i] == if i < |less| then less[i] else more[i - |less|];
      }
    }
  }

  lemma NoneDone(parser: Parser, views: Views, scope: Scope, types: seq<TradeType>, shown: map<TradeType, nat>,
                 c: Collected)
    requires ListsOk(parser, views, scope, types) && c.listings == [] && c.known == {} && c.counts == shown
    ensures TypesDone(parser, views, scope, types, shown, 0, c)
  {
    assert types[..0] == [];
    hide Cards, Taken, Displayed, AllOk, ListsOk;
    assert CountsOf(views, scope, [], shown) == shown;
  }

  /** The trade type loop is done, and so is the collection. */
  lemma AllDone(parser: Parser, views: Views, scope: Scope, types: seq<TradeType>, shown: map<TradeType, nat>,
                c: Collected)
    requires ListsOk(parser, views, scope, types) && TypesDone(parser, views, scope, types, shown, |types|, c)
    ensures !AnyWarned(c.listings) && c.listings == ListingsOf(parser, views, scope, types)
    ensures c.counts == CountsOf(views, scope, types, shown)
  {
    assert types[..|types|] == types;
    NoneWarned(parser, views, scope, types);
    hide Cards, Taken, Displayed, AllOk, ListsOk, ListingsOf, CountsOf, TypesIds, AnyWarned;
  }

  /** A collection of a page that stands still, not looking for particular articles, returns. In full scope
      it returns every card of every list that has something to show, with a limit the first so many of
      each list, in order of first appearance, each with its own HTML, rows and articles. */
  lemma StillCollection(page: Page, parser: Parser, scope: Scope, views: Views, place: Screen -> Place, s: Screen,
                        shown: map<TradeType, nat>, rounds: nat, fuel: nat)
    requires StandsStill(page, views, place) && scope.expected == {} && rounds > 0
    requires var types := NonEmpty(scope.types, shown);
      && ListsOk(parser, views, scope, types) && Distinct(TypesIds(parser, views, scope, types))
      && forall tt :: tt in types ==> fuel >= |Cards(views, tt)| + |views(tt)|
    ensures var types := NonEmpty(scope.types, shown);
      Collect(page, parser, scope, s, shown, rounds, fuel)
        == Done(CrawlPayload(true, ListingsOf(parser, views, scope, types), CountsOf(views, scope, types, shown)))
  {
    var types, start := NonEmpty(scope.types, shown), Collected(s, {}, shown, []);
    assert scope.expected == {};
    hide NonEmpty, CollectFrom, ListingsOf, TypesIds, CountsOf, Cards, ListsOk, StandsStill, TypesDone;
    hide AnyWarned, ArticlesOf;
    hide Distinct, FullScope;
    NoneDone(parser, views, scope, types, shown, start);
    TypesStill(page, parser, scope, views, place, types, shown, 0, start, rounds, fuel);
    AllDone(parser, views, scope, types, shown, CollectFrom(page, parser, scope, types, 0, start, rounds, fuel).value);
  }

  /** `kept` are the trade types with something to show, in order; `at` says where they stand. */
  ghost predicate KeptAt(types: seq<TradeType>, shown: map<TradeType, nat>, kept: seq<TradeType>, at: seq<nat>)
  {
    && |at| == |kept|
    && (forall i :: 0 <= i < |at| ==> at[i] < |types| && kept[i] == types[at[i]])
    && (forall i, k :: 0 <= i < k < |at| ==> at[i] < at[k])
    && (forall i :: 0 <= i < |types| ==> (i in at <==> types[i] in shown && shown[types[i]] > 0))
  }

  lemma KeptSnoc(types: seq<TradeType>, shown: map<TradeType, nat>, kept: seq<TradeType>, at: seq<nat>, tt: TradeType)
    requires KeptAt(types, shown, kept, at)
    ensures if tt in shown && shown[tt] > 0 then KeptAt(types + [tt], shown, kept + [tt], at + [|types|])
            else KeptAt(types + [tt], shown, kept, at)
  {
    var all, n := types + [tt], |types|;
    assert forall i :: 0 <= i < n ==> all[i] == types[i];
    assert n !in at;
  }

  /** The trade types with something to show keep the order of the scope. */
  lemma {:induction false} TypesInOrder(types: seq<TradeType>, shown: map<TradeType, nat>) returns (at: seq<nat>)
    ensures KeptAt(types, shown, NonEmpty(types, shown), at)
  {
    at := [];
    if types != [] {
      var n := |types| - 1;
      var rest := TypesInOrder(types[..n], shown);
      hide KeptAt;
      KeptSnoc(types[..n], shown, NonEmpty(types[..n], shown), rest, types[n]);
      assert types == types[..n] + [types[n]];
      at := if types[n] in shown && shown[types[n]] > 0 then rest + [n] else rest;
      assert NonEmpty(types[..n], shown) + [] == NonEmpty(types[..n], shown);
    }
  }
}
