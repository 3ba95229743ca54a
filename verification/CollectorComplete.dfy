/** Fail-closed completeness: a full-scope collection raises or returns everything the page displayed, once. */
module CollectorComplete {
  import opened Support
  import opened Collector

  /* ------------------------- one group ------------------------- */

  /** `v'` is `v` with further, so far unknown articles. */
  ghost predicate Gathered(v: Visited, v': Visited)
  {
    && |v.articles| <= |v'.articles| && v'.articles[..|v.articles|] == v.articles
    && Fresh(v'.articles[|v.articles|..], v.known, v'.known)
    && (v.warned ==> v'.warned)
  }

  /** The articles are distinct, were unknown before, and are what became known. */
  ghost predicate Fresh(articles: seq<ArticleId>, before: set<ArticleId>, after: set<ArticleId>)
  {
    Distinct(articles) && (forall a :: a in articles ==> a !in before) && after == before + SetOf(articles)
  }

  lemma FreshConcat(a: seq<ArticleId>, b: seq<ArticleId>, x: set<ArticleId>, y: set<ArticleId>, z: set<ArticleId>)
    requires Fresh(a, x, y) && Fresh(b, y, z)
    ensures Fresh(a + b, x, z)
  {
    forall i, j | 0 <= i < j < |a + b| ensures (a + b)[i] != (a + b)[j] {
      if i < |a| <= j {
        assert a[i] in y && b[j - |a|] !in y;
      }
    }
    assert SetOf(a + b) == SetOf(a) + SetOf(b);
  }

  lemma GatheredTrans(u: Visited, v: Visited, w: Visited)
    requires Gathered(u, v) && Gathered(v, w)
    ensures Gathered(u, w) && v.known <= w.known && (v.warned ==> w.warned)
  {
    FreshConcat(v.articles[|u.articles|..], w.articles[|v.articles|..], u.known, v.known, w.known);
    assert w.articles[|u.articles|..] == v.articles[|u.articles|..] + w.articles[|v.articles|..];
    assert w.articles[..|u.articles|] == w.articles[..|v.articles|][..|u.articles|];
  }

  lemma GatheredTake(v: Visited, s: Screen, id: ArticleId)
    requires id !in v.known
    ensures Gathered(v, Take(v, s, id))
  {
    assert Take(v, s, id).articles[|v.articles|..] == [id];
    assert Take(v, s, id).articles[..|v.articles|] == v.articles;
  }

  lemma GatheredSame(v: Visited, w: Visited)
    requires w.articles == v.articles && w.known == v.known && (v.warned ==> w.warned)
    ensures Gathered(v, w)
  {
    assert v.articles[|v.articles|..] == [];
    assert v.articles[..|v.articles|] == v.articles;
  }

  /** The article loop: each article of the rows that is in scope and unknown is gathered, or a warning is left. */
  lemma {:induction false} VisitRowsMeaning(page: Page, parser: Parser, scope: Scope, rows: seq<Html>, i: nat,
                                            v: Visited)
    requires i <= |rows| && VisitRows(page, parser, scope, rows, i, v).Done?
    ensures var r := VisitRows(page, parser, scope, rows, i, v).value;
      && Gathered(v, r)
      && (forall a :: a in r.known ==> a in v.known || (ShouldVisit(scope, a) && a in RowIds(parser, rows)))
      && (forall k :: i <= k < |rows| ==> parser.article(rows[k]).Done?)
      && (!r.warned ==> forall k :: i <= k < |rows| && ShouldVisit(scope, parser.article(rows[k]).value) ==>
            parser.article(rows[k]).value in r.known)
    decreases |rows| - i
  {
    hide Gathered;
    if i < |rows| {
      var id, w := parser.article(rows[i]).value, AfterRow(page, parser, scope, rows[i], v);
      OneRow(page, parser, scope, rows, i, v);
      assert id in RowIds(parser, rows);
      VisitRowsMeaning(page, parser, scope, rows, i + 1, w.value);
      GatheredTrans(v, w.value, VisitRows(page, parser, scope, rows, i, v).value);
    } else {
      GatheredSame(v, v);
    }
  }

  /** The state of the article loop after one row. */
  function AfterRow(page: Page, parser: Parser, scope: Scope, row: Html, v: Visited): Outcome<Visited>
  {
    var id :- parser.article(row);
    if !ShouldVisit(scope, id) || id in v.known then Done(v)
    else if !scope.details then Done(Take(v, v.s, id))
    else
      var (s1, collected) :- page.visit(v.s, id);
      Done(if collected then Take(v, s1, id) else v.(s := s1, warned := true))
  }

  lemma OneRow(page: Page, parser: Parser, scope: Scope, rows: seq<Html>, i: nat, v: Visited)
    requires i < |rows| && VisitRows(page, parser, scope, rows, i, v).Done?
    ensures var r := AfterRow(page, parser, scope, rows[i], v);
      && r.Done?
      && VisitRows(page, parser, scope, rows, i, v) == VisitRows(page, parser, scope, rows, i + 1, r.value)
      && parser.article(rows[i]).Done?
      && var id := parser.article(rows[i]).value;
         && Gathered(v, r.value)
         && (forall a :: a in r.value.known ==> a in v.known || (a == id && ShouldVisit(scope, id)))
         && (!r.value.warned && ShouldVisit(scope, id) ==> id in r.value.known)
  {
    var r := AfterRow(page, parser, scope, rows[i], v);
    var id := parser.article(rows[i]).value;
    if id !in v.known {
      GatheredTake(v, v.s, id);
      if r.Done? {
        GatheredTake(v, r.value.s, id);
      }
    }
    GatheredSame(v, v);
    if r.Done? && r.value.articles == v.articles && r.value.known == v.known {
      GatheredSame(v, r.value);
    }
    hide Gathered;
  }

  /** Rows with distinct articles, each the one its HTML links to. */
  ghost predicate RowsOk(parser: Parser, rows: seq<Row>)
  {
    && (forall i :: 0 <= i < |rows| ==> parser.article(rows[i].html) == Done(rows[i].id))
    && (forall i, j :: 0 <= i < j < |rows| ==> rows[i].id != rows[j].id)
  }

  lemma {:induction false} ReadLinksOk(page: Page, parser: Parser, s: Screen, card: nat, i: nat, n: nat, rows: seq<Row>)
    requires RowsOk(parser, rows) && ReadLinks(page, parser, s, card, i, n, rows).Done?
    ensures RowsOk(parser, ReadLinks(page, parser, s, card, i, n, rows).value.1)
    decreases n - i
  {
    if i < n {
      var (s1, html) := page.linkRow(s, card, i).value;
      var id := parser.article(html).value;
      ReadLinksOk(page, parser, s1, card, i + 1, n, AddRow(rows, Row(id, html)));
    }
  }

  /** The rows of an opened card: distinct articles, at least as many as the card displays. */
  lemma {:induction false} ExpandedRowsOk(page: Page, parser: Parser, s: Screen, card: nat, expected: Option<nat>,
                                          rows: seq<Row>, rounds: nat)
    requires RowsOk(parser, rows) && ExpandedRows(page, parser, s, card, expected, rows, rounds).Done?
    ensures var r := ExpandedRows(page, parser, s, card, expected, rows, rounds).value.1;
      RowsOk(parser, r) && (expected.Some? ==> |r| >= expected.value)
    decreases rounds
  {
    var (s1, n) := page.linkCount(s, card).value;
    ReadLinksOk(page, parser, s1, card, 0, n, rows);
    var (s2, all) := ReadLinks(page, parser, s1, card, 0, n, rows).value;
    hide RowsOk;
    if expected.Some? && |all| < expected.value {
      ExpandedRowsOk(page, parser, page.moreLinks(s2, card, n).value.0, card, expected, all, rounds - 1);
    }
  }

  function Ids(rows: seq<Row>): set<ArticleId>
  {
    set r | r in rows :: r.id
  }

  lemma {:induction false} RowIdsCount(parser: Parser, rows: seq<Row>)
    requires RowsOk(parser, rows)
    ensures RowIds(parser, Htmls(rows)) == Ids(rows) && |Ids(rows)| == |rows|
  {
    hide *;
    if rows == [] {
      NoRows(parser);
    } else {
      var n := |rows| - 1;
      RowsSnoc(parser, rows);
      RowIdsCount(parser, rows[..n]);
      RowIdsSnoc(parser, Htmls(rows[..n]), rows[n].html);
    }
  }

  lemma NoRows(parser: Parser)
    ensures RowIds(parser, Htmls([])) == {} && Ids([]) == {}
  {
  }

  lemma RowsSnoc(parser: Parser, rows: seq<Row>)
    requires rows != [] && RowsOk(parser, rows)
    ensures var n := |rows| - 1;
      && RowsOk(parser, rows[..n]) && parser.article(rows[n].html) == Done(rows[n].id)
      && Htmls(rows) == Htmls(rows[..n]) + [rows[n].html]
      && Ids(rows) == Ids(rows[..n]) + {rows[n].id} && rows[n].id !in Ids(rows[..n])
  {
    assert rows == rows[..|rows| - 1] + [rows[|rows| - 1]];
  }

  lemma RowIdsSnoc(parser: Parser, rows: seq<Html>, html: Html)
    requires parser.article(html).Done?
    ensures RowIds(parser, rows + [html]) == RowIds(parser, rows) + {parser.article(html).value}
  {
    assert forall r :: r in rows + [html] <==> r in rows || r == html;
    forall a
      ensures a in RowIds(parser, rows + [html]) <==> a in RowIds(parser, rows) || a == parser.article(html).value {
      if a in RowIds(parser, rows) {
        var r :| r in rows && parser.article(r).Done? && parser.article(r).value == a;
        assert r in rows + [html];
      }
    }
  }

  /** What a collected group is, once `known` articles are known. */
  ghost predicate GroupOk(parser: Parser, scope: Scope, g: CollectedGroup, known: set<ArticleId>)
  {
    && (forall a :: a in g.articles ==> ShouldVisit(scope, a) && a in RowIds(parser, g.rows))
    && (!g.warned ==> forall a :: a in RowIds(parser, g.rows) && ShouldVisit(scope, a) ==> a in known)
    && |RowIds(parser, g.rows)| == |g.rows|
    && (parser.brokers(g.html).Some? ==> g.rows == [g.html] || |g.rows| >= parser.brokers(g.html).value)
  }

  lemma CollectGroupOk(page: Page, parser: Parser, scope: Scope, s: Screen, card: nat, known: set<ArticleId>,
                       rounds: nat)
    requires CollectGroup(page, parser, scope, s, card, known, rounds).Done?
    ensures var (s', g, known') := CollectGroup(page, parser, scope, s, card, known, rounds).value;
      Fresh(g.articles, known, known') && GroupOk(parser, scope, g, known')
  {
    var (s1, html) := page.cardHtml(s, card).value;
    var (s2, opening) := page.open(s1, card).value;
    hide ExpandedRows, VisitRows, RowIds, Fresh;
    if opening == SingleLink {
      SingleRow(parser, html) by { VisitRowsMeaning(page, parser, scope, [html], 0, Visited(s2, [], known, false)); }
      GroupFrom(page, parser, scope, html, [html], Visited(s2, [], known, false));
    } else {
      var (s3, rows) := ExpandedRows(page, parser, s2, card, parser.brokers(html), [], rounds).value;
      ExpandedRowsOk(page, parser, s2, card, parser.brokers(html), [], rounds);
      RowIdsCount(parser, rows);
      GroupFrom(page, parser, scope, html, Htmls(rows), Visited(s3, [], known, false));
    }
  }

  lemma SingleRow(parser: Parser, html: Html)
    requires parser.article(html).Done?
    ensures |RowIds(parser, [html])| == 1
  {
    assert RowIds(parser, [html]) == {parser.article(html).value};
  }

  lemma GroupFrom(page: Page, parser: Parser, scope: Scope, html: Html, rows: seq<Html>, v: Visited)
    requires v.articles == [] && !v.warned && VisitRows(page, parser, scope, rows, 0, v).Done?
    requires |RowIds(parser, rows)| == |rows|
    requires parser.brokers(html).Some? ==> rows == [html] || |rows| >= parser.brokers(html).value
    ensures var r := VisitRows(page, parser, scope, rows, 0, v).value;
      Fresh(r.articles, v.known, r.known)
      && GroupOk(parser, scope, CollectedGroup(html, rows, r.articles, r.warned), r.known)
  {
    var r := VisitRows(page, parser, scope, rows, 0, v).value;
    VisitRowsMeaning(page, parser, scope, rows, 0, v);
    assert r.articles[0..] == r.articles;
    hide VisitRows, ShouldVisit;
  }

  /* ------------------------- one trade type ------------------------- */

  function GroupArticles(groups: seq<CollectedGroup>): seq<ArticleId>
  {
    if groups == [] then [] else GroupArticles(groups[..|groups| - 1]) + groups[|groups| - 1].articles
  }

  /** Invariant of the scan loop: a card per key, and nothing collected twice. */
  ghost predicate ScanOk(parser: Parser, scope: Scope, known: set<ArticleId>, c: Scan)
  {
    && |c.seen| == |c.groups|
    && Fresh(GroupArticles(c.groups), known, c.known)
    && forall i :: 0 <= i < |c.groups| ==> GroupOk(parser, scope, c.groups[i], c.known)
  }

  lemma GroupOkMore(parser: Parser, scope: Scope, g: CollectedGroup, known: set<ArticleId>, more: set<ArticleId>)
    requires GroupOk(parser, scope, g, known) && known <= more
    ensures GroupOk(parser, scope, g, more)
  {
  }

  lemma {:induction false} FindCardUnseen(page: Page, s: Screen, seen: set<Key>, i: nat, n: nat)
    requires FindCard(page, s, seen, i, n).Done? && FindCard(page, s, seen, i, n).value.1.Some?
    ensures FindCard(page, s, seen, i, n).value.1.value.1 !in seen
    decreases n - i
  {
    var (s1, key) := page.cardKey(s, i).value;
    if key in seen {
      FindCardUnseen(page, s1, seen, i + 1, n);
    }
  }

  /** The scan state after collecting the card with key `key`. */
  lemma GroupAdded(parser: Parser, scope: Scope, known: set<ArticleId>, c: Scan, c': Scan, key: Key, g: CollectedGroup)
    requires ScanOk(parser, scope, known, c) && key !in c.seen
    requires c'.seen == c.seen + {key} && c'.groups == c.groups + [g]
    requires Fresh(g.articles, c.known, c'.known) && GroupOk(parser, scope, g, c'.known)
    ensures ScanOk(parser, scope, known, c')
  {
    assert GroupArticles(c'.groups) == GroupArticles(c.groups) + g.articles;
    FreshConcat(GroupArticles(c.groups), g.articles, known, c.known, c'.known);
    assert c.known <= c'.known;
    hide Fresh, GroupOk;
    forall i | 0 <= i < |c'.groups| ensures GroupOk(parser, scope, c'.groups[i], c'.known) {
      if i < |c.groups| {
        GroupOkMore(parser, scope, c.groups[i], c.known, c'.known);
      }
    }
  }

  /** How a scan may return: under its limit, and in full scope with all that the page displays at that moment. */
  ghost predicate ReturnOk(page: Page, scope: Scope, tradeType: TradeType, c: Scan)
  {
    FullScope(scope) ==> |c.groups| >= c.latest && exists s :: Displays(page, tradeType, s, c.s, c.latest)
  }

  /** Asked at `s`, the page displays this count and moves to `s'`. */
  ghost predicate Displays(page: Page, tradeType: TradeType, s: Screen, s': Screen, count: nat)
  {
    var d := page.displayed(s, tradeType);
    d.Done? && d.value.0 == s' && d.value.1 == count
  }

  lemma EndOfCardsOk(page: Page, parser: Parser, scope: Scope, tradeType: TradeType, known: set<ArticleId>, c: Scan)
    requires ScanOk(parser, scope, known, c) && EndOfCards(page, scope, tradeType, c).Done?
    ensures var m := EndOfCards(page, scope, tradeType, c).value;
      ScanOk(parser, scope, known, m.scan) && m.scan.groups == c.groups && m.scan.seen == c.seen
      && (m.Return? ==> ReturnOk(page, scope, tradeType, m.scan))
  {
    hide Fresh, GroupOk;
    var m := EndOfCards(page, scope, tradeType, c).value;
    if m.Return? && FullScope(scope) {
      assert Displays(page, tradeType, page.atEnd(c.s).value.0, m.scan.s, m.scan.latest);
    }
  }

  lemma ScanMoveOk(page: Page, parser: Parser, scope: Scope, tradeType: TradeType, known: set<ArticleId>, c: Scan,
                   rounds: nat)
    requires ScanOk(parser, scope, known, c) && ScanMove(page, parser, scope, tradeType, c, rounds).Done?
    ensures var m := ScanMove(page, parser, scope, tradeType, c, rounds).value;
      && ScanOk(parser, scope, known, m.scan)
      && (m.Return? ==> ReturnOk(page, scope, tradeType, m.scan))
      && (scope.limit.Some? && |c.groups| <= scope.limit.value ==> |m.scan.groups| <= scope.limit.value)
  {
    hide ScanOk, CollectGroup, FindCard, EndOfCards, RowIds, Fresh, GroupOk;
    if ShouldScan(scope, |c.groups|) {
      var (s1, n) := page.cardCount(c.s).value;
      var (s2, found) := FindCard(page, s1, c.seen, 0, n).value;
      if found.None? {
        ScanOkMoved(parser, scope, known, c, c.(s := s2));
        EndOfCardsOk(page, parser, scope, tradeType, known, c.(s := s2));
      } else {
        FindCardUnseen(page, s1, c.seen, 0, n);
        CollectGroupOk(page, parser, scope, s2, found.value.0, c.known, rounds);
        var (s3, group, known') := CollectGroup(page, parser, scope, s2, found.value.0, c.known, rounds).value;
        GroupAdded(parser, scope, known, c,
                   c.(s := s3, seen := c.seen + {found.value.1}, groups := c.groups + [group], known := known'),
                   found.value.1, group);
      }
    }
  }

  lemma ScanOkMoved(parser: Parser, scope: Scope, known: set<ArticleId>, c: Scan, c': Scan)
    requires ScanOk(parser, scope, known, c) && c'.seen == c.seen && c'.groups == c.groups && c'.known == c.known
    ensures ScanOk(parser, scope, known, c')
  {
  }

  /** A scan that returns: nothing twice, at most the limit, and in full scope at least the
      displayed number of groups. */
  lemma {:induction false} ScanFromOk(page: Page, parser: Parser, scope: Scope, tradeType: TradeType,
                                      known: set<ArticleId>, c: Scan, rounds: nat, fuel: nat)
    requires ScanOk(parser, scope, known, c) && ScanFrom(page, parser, scope, tradeType, c, rounds, fuel).Done?
    ensures var r := ScanFrom(page, parser, scope, tradeType, c, rounds, fuel).value;
      && ScanOk(parser, scope, known, r) && ReturnOk(page, scope, tradeType, r)
      && (scope.limit.Some? && |c.groups| <= scope.limit.value ==> |r.groups| <= scope.limit.value)
    decreases fuel
  {
    hide ScanOk, ReturnOk, ScanMove;
    var m := ScanMove(page, parser, scope, tradeType, c, rounds).value;
    ScanMoveOk(page, parser, scope, tradeType, known, c, rounds);
    if m.Next? {
      ScanFromOk(page, parser, scope, tradeType, known, m.scan, rounds, fuel - 1);
    }
  }

  lemma ScanTypeOk(page: Page, parser: Parser, scope: Scope, tradeType: TradeType, shown: nat, s: Screen,
                   known: set<ArticleId>, rounds: nat, fuel: nat)
    requires ScanType(page, parser, scope, tradeType, shown, s, known, rounds, fuel).Done?
    ensures var r := ScanType(page, parser, scope, tradeType, shown, s, known, rounds, fuel).value;
      && ScanOk(parser, scope, known, r) && ReturnOk(page, scope, tradeType, r)
      && (scope.limit.Some? ==> |r.groups| <= scope.limit.value)
  {
    var c := Scan(page.container(s).value.0, {}, [], known, 0, shown);
    assert Fresh([], known, known) && ScanOk(parser, scope, known, c);
    hide ScanOk, ReturnOk, ScanFrom;
    ScanFromOk(page, parser, scope, tradeType, known, c, rounds, fuel);
  }

  /* ------------------------- the payload ------------------------- */

  function Tagged(tradeType: TradeType, groups: seq<CollectedGroup>): seq<ListingDetail>
  {
    seq(|groups|, i requires 0 <= i < |groups| => ListingDetail(tradeType, groups[i]))
  }

  /** In full scope: as many articles as the card displays or, if it displays no number, as its rows link to. */
  ghost predicate Whole(parser: Parser, scope: Scope, g: CollectedGroup)
  {
    FullScope(scope) ==> |g.articles| == ExpectedBrokers(parser, g) && !g.warned
  }

  lemma {:induction false} AssembleOk(parser: Parser, scope: Scope, tradeType: TradeType, groups: seq<CollectedGroup>,
                                      i: nat, listings: seq<ListingDetail>)
    requires i <= |groups| && Assemble(parser, scope, tradeType, groups, i, listings).Done?
    ensures Assemble(parser, scope, tradeType, groups, i, listings).value == listings + Tagged(tradeType, groups[i..])
    ensures forall k :: i <= k < |groups| ==> Whole(parser, scope, groups[k])
    decreases |groups| - i
  {
    hide ExpectedBrokers;
    if i < |groups| {
      AssembleOk(parser, scope, tradeType, groups, i + 1, listings + [ListingDetail(tradeType, groups[i])]);
      assert Tagged(tradeType, groups[i..])
        == [ListingDetail(tradeType, groups[i])] + Tagged(tradeType, groups[i + 1..]);
    } else {
      assert Tagged(tradeType, groups[i..]) == [];
    }
  }

  /** Listings scanned under a trade type. */
  function CountOf(listings: seq<ListingDetail>, tradeType: TradeType): nat
  {
    if listings == [] then 0
    else CountOf(listings[..|listings| - 1], tradeType) + if listings[|listings| - 1].scanned == tradeType then 1 else 0
  }

  lemma TaggedSnoc(listings: seq<ListingDetail>, tradeType: TradeType, groups: seq<CollectedGroup>)
    requires groups != []
    ensures var all, n := listings + Tagged(tradeType, groups), |groups| - 1;
      && |all| == |listings| + n + 1 && all[|all| - 1] == ListingDetail(tradeType, groups[n])
      && all[..|all| - 1] == listings + Tagged(tradeType, groups[..n])
  {
  }

  lemma {:induction false} TaggedAdds(listings: seq<ListingDetail>, tradeType: TradeType, groups: seq<CollectedGroup>,
                                      other: TradeType)
    ensures ArticlesOf(listings + Tagged(tradeType, groups)) == ArticlesOf(listings) + GroupArticles(groups)
    ensures CountOf(listings + Tagged(tradeType, groups), other)
         == CountOf(listings, other) + (if other == tradeType then |groups| else 0)
  {
    var all := listings + Tagged(tradeType, groups);
    if groups == [] {
      assert all == listings;
      assert ArticlesOf(listings) + [] == ArticlesOf(listings);
    } else {
      var n := |groups| - 1;
      var rest := listings + Tagged(tradeType, groups[..n]);
      TaggedAdds(listings, tradeType, groups[..n], other);
      TaggedSnoc(listings, tradeType, groups);
      hide Tagged;
      assert ArticlesOf(all) == ArticlesOf(rest) + groups[n].articles;
      assert GroupArticles(groups) == GroupArticles(groups[..n]) + groups[n].articles;
      assert CountOf(all, other) == CountOf(rest, other) + (if other == tradeType then 1 else 0);
    }
  }

  /** Invariant of the trade type loop. */
  ghost predicate CollectedOk(parser: Parser, scope: Scope, c: Collected)
  {
    && Fresh(ArticlesOf(c.listings), {}, c.known)
    && forall i :: 0 <= i < |c.listings| ==>
         GroupOk(parser, scope, c.listings[i].group, c.known) && Whole(parser, scope, c.listings[i].group)
  }

  /** A finished trade type: within the limit, and in full scope no fewer listings than the page displayed last. */
  ghost predicate TypeOk(page: Page, scope: Scope, tradeType: TradeType, c: Collected)
  {
    && (scope.limit.Some? ==> CountOf(c.listings, tradeType) <= scope.limit.value)
    && (FullScope(scope) ==>
          tradeType in c.counts && CountOf(c.listings, tradeType) >= c.counts[tradeType]
          && exists s, s' :: Displays(page, tradeType, s, s', c.counts[tradeType]))
  }

  lemma ListingsAdded(parser: Parser, scope: Scope, c: Collected, c': Collected, tradeType: TradeType,
                      groups: seq<CollectedGroup>)
    requires CollectedOk(parser, scope, c) && c'.listings == c.listings + Tagged(tradeType, groups)
    requires Fresh(GroupArticles(groups), c.known, c'.known)
    requires forall i :: 0 <= i < |groups| ==>
      GroupOk(parser, scope, groups[i], c'.known) && Whole(parser, scope, groups[i])
    ensures CollectedOk(parser, scope, c')
  {
    hide Distinct, GroupOk, Whole, ArticlesOf, GroupArticles, CountOf;
    TaggedAdds(c.listings, tradeType, groups, tradeType);
    FreshConcat(ArticlesOf(c.listings), GroupArticles(groups), {}, c.known, c'.known);
    assert c.known <= c'.known;
    forall i | 0 <= i < |c'.listings|
      ensures GroupOk(parser, scope, c'.listings[i].group, c'.known) && Whole(parser, scope, c'.listings[i].group)
    {
      if i < |c.listings| {
        GroupOkMore(parser, scope, c.listings[i].group, c.known, c'.known);
      }
    }
  }

  /** Collecting one trade type keeps the invariant, finishes the type and leaves the other types' listings alone. */
  lemma CollectTypeOk(page: Page, parser: Parser, scope: Scope, tt: TradeType, c: Collected, rounds: nat, fuel: nat)
    requires CollectedOk(parser, scope, c) && CollectType(page, parser, scope, tt, c, rounds, fuel).Done?
    ensures var r := CollectType(page, parser, scope, tt, c, rounds, fuel).value;
      && CollectedOk(parser, scope, r)
      && (CountOf(c.listings, tt) == 0 ==> TypeOk(page, scope, tt, r))
      && (forall other :: other != tt ==> CountOf(r.listings, other) == CountOf(c.listings, other))
      && r.counts.Keys == c.counts.Keys + {tt}
      && (forall other :: other in c.counts && other != tt ==> r.counts[other] == c.counts[other])
  {
    hide ScanType, Assemble, CollectedOk, ScanOk, CountOf, Displays, Fresh, GroupOk, Whole;
    var r := CollectType(page, parser, scope, tt, c, rounds, fuel).value;
    var shown := if tt in c.counts then c.counts[tt] else 0;
    var s1 := page.switchTo(c.s, tt).value;
    var scan := ScanType(page, parser, scope, tt, shown, s1, c.known, rounds, fuel).value;
    ScanTypeOk(page, parser, scope, tt, shown, s1, c.known, rounds, fuel);
    AssembleOk(parser, scope, tt, scan.groups, 0, c.listings);
    assert scan.groups[0..] == scan.groups;
    ScanParts(parser, scope, c.known, scan);
    ListingsAdded(parser, scope, c, r, tt, scan.groups);
    forall other
      ensures CountOf(r.listings, other) == CountOf(c.listings, other) + (if other == tt then |scan.groups| else 0) {
      TaggedAdds(c.listings, tt, scan.groups, other);
    }
  }

  lemma ScanParts(parser: Parser, scope: Scope, known: set<ArticleId>, c: Scan)
    requires ScanOk(parser, scope, known, c)
    ensures Fresh(GroupArticles(c.groups), known, c.known)
    ensures forall i :: 0 <= i < |c.groups| ==> GroupOk(parser, scope, c.groups[i], c.known)
  {
  }

  lemma TypeOkKept(page: Page, scope: Scope, tt: TradeType, c: Collected, c': Collected)
    requires TypeOk(page, scope, tt, c) && CountOf(c'.listings, tt) == CountOf(c.listings, tt)
    requires tt in c.counts ==> tt in c'.counts && c'.counts[tt] == c.counts[tt]
    ensures TypeOk(page, scope, tt, c')
  {
  }

  lemma {:induction false} CollectFromOk(page: Page, parser: Parser, scope: Scope, types: seq<TradeType>, k: nat,
                                         c: Collected, rounds: nat, fuel: nat)
    requires k <= |types| && Distinct(types) && CollectedOk(parser, scope, c)
    requires CollectFrom(page, parser, scope, types, k, c, rounds, fuel).Done?
    requires forall i :: 0 <= i < k ==> TypeOk(page, scope, types[i], c)
    requires forall tt :: tt !in types[..k] ==> CountOf(c.listings, tt) == 0
    ensures var r := CollectFrom(page, parser, scope, types, k, c, rounds, fuel).value;
      && CollectedOk(parser, scope, r)
      && (forall i :: 0 <= i < |types| ==> TypeOk(page, scope, types[i], r))
      && (forall tt :: tt !in types ==> CountOf(r.listings, tt) == 0)
    decreases |types| - k
  {
    hide CollectType, CollectedOk, TypeOk, CountOf;
    if k < |types| {
      var tt := types[k];
      assert tt !in types[..k];
      var next := CollectType(page, parser, scope, tt, c, rounds, fuel).value;
      CollectTypeOk(page, parser, scope, tt, c, rounds, fuel);
      forall i | 0 <= i < k + 1 ensures TypeOk(page, scope, types[i], next) {
        if i < k {
          assert types[i] != tt;
          TypeOkKept(page, scope, types[i], c, next);
        }
      }
      assert types[..k + 1] == types[..k] + [tt];
      CollectFromOk(page, parser, scope, types, k + 1, next, rounds, fuel);
    } else {
      assert types[..k] == types;
    }
  }

  lemma {:induction false} NonEmptyMembers(types: seq<TradeType>, counts: map<TradeType, nat>)
    requires Distinct(types)
    ensures Distinct(NonEmpty(types, counts))
    ensures forall tt :: tt in NonEmpty(types, counts) <==> tt in types && tt in counts && counts[tt] > 0
  {
    if types != [] {
      var n := |types| - 1;
      NonEmptyMembers(types[..n], counts);
      assert types == types[..n] + [types[n]];
      assert types[n] !in types[..n];
    }
  }

  /**
   What a full collection promises: it is completed; for every trade type the panel showed it has at least as many
   listings as the page displayed last; every listing has exactly its expected number of articles; no article comes
   twice; and every article its rows link to is there.
   */
  ghost predicate Complete(page: Page, parser: Parser, scope: Scope, shown: map<TradeType, nat>, p: CrawlPayload)
  {
    && p.completed
    && (forall tt :: tt in scope.types && tt in shown && shown[tt] > 0 ==>
          tt in p.counts && CountOf(p.listings, tt) >= p.counts[tt]
          && exists u, u' :: Displays(page, tt, u, u', p.counts[tt]))
    && (forall i :: 0 <= i < |p.listings| ==>
          var g := p.listings[i].group;
          |g.articles| == match parser.brokers(g.html) case Some(n) => n case None => |RowIds(parser, g.rows)|)
    && Distinct(ArticlesOf(p.listings))
    && (forall i, a :: 0 <= i < |p.listings| && a in RowIds(parser, p.listings[i].group.rows) ==>
          a in ArticlesOf(p.listings))
  }

  /** For every page, a full-scope collection that returns keeps that promise. */
  lemma FullCollection(page: Page, parser: Parser, scope: Scope, s: Screen, shown: map<TradeType, nat>, rounds: nat,
                       fuel: nat)
    requires scope.limit.None? && scope.expected == {} && Distinct(scope.types)
    requires Collect(page, parser, scope, s, shown, rounds, fuel).Done?
    ensures Complete(page, parser, scope, shown, Collect(page, parser, scope, s, shown, rounds, fuel).value)
  {
    hide CollectFrom, CollectedOk, TypeOk, CountOf, NonEmpty, Displays, ArticlesOf, RowIds, AnyWarned;
    var types := NonEmpty(scope.types, shown);
    var c := Collected(s, {}, shown, []);
    NonEmptyMembers(scope.types, shown);
    EmptyOk(parser, scope, c);
    CollectFromOk(page, parser, scope, types, 0, c, rounds, fuel);
    var r := CollectFrom(page, parser, scope, types, 0, c, rounds, fuel).value;
    forall tt | tt in types
      ensures tt in r.counts && CountOf(r.listings, tt) >= r.counts[tt]
      ensures exists u, u' :: Displays(page, tt, u, u', r.counts[tt])
    {
      var i :| 0 <= i < |types| && types[i] == tt;
      TypeWhole(page, scope, tt, r);
    }
    CollectedWhole(parser, scope, r);
  }

  lemma EmptyOk(parser: Parser, scope: Scope, c: Collected)
    requires c.listings == [] && c.known == {}
    ensures CollectedOk(parser, scope, c) && forall tt :: CountOf(c.listings, tt) == 0
  {
  }

  lemma TypeWhole(page: Page, scope: Scope, tt: TradeType, c: Collected)
    requires TypeOk(page, scope, tt, c)
    ensures scope.limit.Some? ==> CountOf(c.listings, tt) <= scope.limit.value
    ensures FullScope(scope) ==> tt in c.counts && CountOf(c.listings, tt) >= c.counts[tt]
    ensures FullScope(scope) ==> exists u, u' :: Displays(page, tt, u, u', c.counts[tt])
  {
  }

  lemma CollectedWhole(parser: Parser, scope: Scope, c: Collected)
    requires FullScope(scope) && CollectedOk(parser, scope, c)
    ensures !AnyWarned(c.listings) && scope.expected == {} && Distinct(ArticlesOf(c.listings))
    ensures forall i :: 0 <= i < |c.listings| ==>
      |c.listings[i].group.articles| == ExpectedBrokers(parser, c.listings[i].group)
    ensures forall i, a :: 0 <= i < |c.listings| && a in RowIds(parser, c.listings[i].group.rows) ==>
      a in ArticlesOf(c.listings)
  {
    hide ExpectedBrokers, ArticlesOf, RowIds;
    forall i | 0 <= i < |c.listings|
      ensures |c.listings[i].group.articles| == ExpectedBrokers(parser, c.listings[i].group)
      ensures !c.listings[i].group.warned
      ensures forall a :: a in RowIds(parser, c.listings[i].group.rows) ==> a in ArticlesOf(c.listings)
    {
      assert GroupOk(parser, scope, c.listings[i].group, c.known) && Whole(parser, scope, c.listings[i].group);
    }
  }

  /** For every page and any scope: no article comes twice, none is outside the scope, and
      no trade type exceeds the limit. */
  lemma ScopedCollection(page: Page, parser: Parser, scope: Scope, s: Screen, shown: map<TradeType, nat>, rounds: nat,
                         fuel: nat)
    requires Distinct(scope.types) && Collect(page, parser, scope, s, shown, rounds, fuel).Done?
    ensures var p := Collect(page, parser, scope, s, shown, rounds, fuel).value;
      && Distinct(ArticlesOf(p.listings))
      && (forall i, a :: 0 <= i < |p.listings| && a in p.listings[i].group.articles ==>
            (scope.expected == {} || a in scope.expected) && a in RowIds(parser, p.listings[i].group.rows))
      && (scope.limit.Some? ==> forall tt :: CountOf(p.listings, tt) <= scope.limit.value)
  {
    var types := NonEmpty(scope.types, shown);
    var c := Collected(s, {}, shown, []);
    NonEmptyMembers(scope.types, shown);
    EmptyOk(parser, scope, c);
    hide CollectFrom, TypeOk, CountOf, NonEmpty, ArticlesOf, RowIds, ShouldVisit, AnyWarned, Whole;
    CollectFromOk(page, parser, scope, types, 0, c, rounds, fuel);
    var r := CollectFrom(page, parser, scope, types, 0, c, rounds, fuel).value;
    forall tt ensures scope.limit.Some? ==> CountOf(r.listings, tt) <= scope.limit.value {
      if tt in types {
        var i :| 0 <= i < |types| && types[i] == tt;
        TypeWhole(page, scope, tt, r);
      }
    }
    forall i | 0 <= i < |r.listings|
      ensures forall a :: a in r.listings[i].group.articles ==>
        ShouldVisit(scope, a) && a in RowIds(parser, r.listings[i].group.rows)
    {
      assert GroupOk(parser, scope, r.listings[i].group, r.known);
    }
  }

  lemma {:induction false} ArticlesOfMember(listings: seq<ListingDetail>, a: ArticleId)
    ensures a in ArticlesOf(listings) <==> exists i :: 0 <= i < |listings| && a in listings[i].group.articles
  {
    if listings != [] {
      var n := |listings| - 1;
      ArticlesOfMember(listings[..n], a);
      assert forall i :: 0 <= i < n ==> listings[..n][i] == listings[i];
    }
  }

  /** For every page and any scope: a payload counts as completed exactly when no listing
      has a warning and every article that was asked for is there. */
  lemma CompletedExactly(page: Page, parser: Parser, scope: Scope, s: Screen, shown: map<TradeType, nat>, rounds: nat,
                         fuel: nat)
    requires Collect(page, parser, scope, s, shown, rounds, fuel).Done?
    ensures var p := Collect(page, parser, scope, s, shown, rounds, fuel).value;
      p.completed <==>
        && (forall i :: 0 <= i < |p.listings| ==> !p.listings[i].group.warned)
        && (forall a :: a in scope.expected ==>
              exists i :: 0 <= i < |p.listings| && a in p.listings[i].group.articles)
  {
    hide CollectFrom, NonEmpty, ArticlesOf;
    var p := Collect(page, parser, scope, s, shown, rounds, fuel).value;
    forall a ensures a in SetOf(ArticlesOf(p.listings)) <==>
      exists i :: 0 <= i < |p.listings| && a in p.listings[i].group.articles
    {
      ArticlesOfMember(p.listings, a);
    }
  }
}
