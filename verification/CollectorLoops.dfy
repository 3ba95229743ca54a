/** The collection as it is written: loops over the page, each proved to compute its function in module Collector. */
module CollectorLoops {
  import opened Support
  import opened Collector
  import opened CollectorComplete

  /** The `for` loop over the cards in view. */
  method FirstUnseen(page: Page, start: Screen, seen: set<Key>, n: nat)
    returns (r: Outcome<(Screen, Option<(nat, Key)>)>)
    ensures r == FindCard(page, start, seen, 0, n)
  {
    var s := start;
    for i := 0 to n
      invariant FindCard(page, start, seen, 0, n) == FindCard(page, s, seen, i, n)
    {
      var answer :- page.cardKey(s, i);
      s := answer.0;
      if answer.1 in seen {
        continue;
      }
      return Done((s, Some((i, answer.1))));
    }
    return Done((s, None));
  }

  /** The `for` loop over the attached broker links. */
  method ReadAttached(page: Page, parser: Parser, start: Screen, card: nat, n: nat, known: seq<Row>)
    returns (r: Outcome<(Screen, seq<Row>)>)
    ensures r == ReadLinks(page, parser, start, card, 0, n, known)
  {
    var s, rows := start, known;
    for i := 0 to n
      invariant ReadLinks(page, parser, start, card, 0, n, known) == ReadLinks(page, parser, s, card, i, n, rows)
    {
      var answer :- page.linkRow(s, card, i);
      if answer.1 == "" {
        return Raised(SelectorMismatch);
      }
      var id :- parser.article(answer.1);
      s := answer.0;
      rows := AddRow(rows, Row(id, answer.1));
    }
    return Done((s, rows));
  }

  /** `_collect_expanded_broker_rows`. */
  method CollectExpandedRows(page: Page, parser: Parser, start: Screen, card: nat, expected: Option<nat>, rounds: nat)
    returns (r: Outcome<(Screen, seq<Row>)>)
    ensures r == ExpandedRows(page, parser, start, card, expected, [], rounds)
  {
    hide ReadLinks;
    var s, rows, left: nat := start, [], rounds;
    while left > 0
      invariant ExpandedRows(page, parser, start, card, expected, [], rounds)
        == ExpandedRows(page, parser, s, card, expected, rows, left)
    {
      var count :- page.linkCount(s, card);
      var pass :- ReadAttached(page, parser, count.0, card, count.1, rows);
      rows := pass.1;
      if expected.None? || |rows| >= expected.value {
        return Done((pass.0, rows));
      }
      var more :- page.moreLinks(pass.0, card, count.1);
      if !more.1 {
        return Raised(IncompleteCollection);
      }
      s, left := more.0, left - 1;
    }
    return Running;
  }

  /** The article loop of `_collect_visible_group`. */
  method VisitArticles(page: Page, parser: Parser, scope: Scope, rows: seq<Html>, start: Screen,
                       seenArticles: set<ArticleId>)
    returns (r: Outcome<Visited>)
    ensures r == VisitRows(page, parser, scope, rows, 0, Visited(start, [], seenArticles, false))
  {
    ghost var begun := Visited(start, [], seenArticles, false);
    var s, articles, known, warned := start, [], seenArticles, false;
    for i := 0 to |rows|
      invariant VisitRows(page, parser, scope, rows, 0, begun)
             == VisitRows(page, parser, scope, rows, i, Visited(s, articles, known, warned))
    {
      var id :- parser.article(rows[i]);
      if !ShouldVisit(scope, id) {
        continue;
      }
      if id in known {
        continue;
      }
      if scope.details {
        var answer :- page.visit(s, id);
        s := answer.0;
        if !answer.1 {
          warned := true;
          continue;
        }
      }
      known := known + {id};
      articles := articles + [id];
    }
    return Done(Visited(s, articles, known, warned));
  }

  /** `_collect_visible_group`. */
  method CollectVisibleGroup(page: Page, parser: Parser, scope: Scope, start: Screen, card: nat,
                             seenArticles: set<ArticleId>, rounds: nat)
    returns (r: Outcome<(Screen, CollectedGroup, set<ArticleId>)>)
    ensures r == CollectGroup(page, parser, scope, start, card, seenArticles, rounds)
  {
    hide VisitRows, ExpandedRows;
    var captured :- page.cardHtml(start, card);
    var html := captured.1;
    var opening :- page.open(captured.0, card);
    var s := opening.0;
    var rows: seq<Html>;
    match opening.1 {
      case Opened =>
        var pass :- CollectExpandedRows(page, parser, s, card, parser.brokers(html), rounds);
        s := pass.0;
        rows := Htmls(pass.1);
      case SingleLink =>
        rows := [html];
      case NoLink =>
        return Raised(SelectorMismatch);
    }
    var visited :- VisitArticles(page, parser, scope, rows, s, seenArticles);
    s := visited.s;
    if opening.1 == Opened {
      s :- page.close(s, card);
    }
    return Done((s, CollectedGroup(html, rows, visited.articles, visited.warned), visited.known));
  }

  /** `_scan_listing_groups`. */
  method ScanListingGroups(page: Page, parser: Parser, scope: Scope, tradeType: TradeType, shown: nat, start: Screen,
                           seenArticles: set<ArticleId>, rounds: nat, fuel: nat) returns (r: Outcome<Scan>)
    ensures r == ScanType(page, parser, scope, tradeType, shown, start, seenArticles, rounds, fuel)
  {
    hide FindCard, CollectGroup, RowIds;
    var container :- page.container(start);
    if !container.1 {
      return Raised(SelectorMismatch);
    }
    var s, known := container.0, seenArticles;
    var seen: set<Key>, groups: seq<CollectedGroup> := {}, [];
    var full := FullScope(scope);
    var passStart: nat, latest: nat, left: nat := 0, shown, fuel;
    ghost var begun := Scan(s, seen, groups, known, passStart, latest);
    while left > 0
      invariant var now := Scan(s, seen, groups, known, passStart, latest);
        ScanFrom(page, parser, scope, tradeType, begun, rounds, fuel)
          == ScanFrom(page, parser, scope, tradeType, now, rounds, left)
    {
      while left > 0
        invariant var now := Scan(s, seen, groups, known, passStart, latest);
          ScanFrom(page, parser, scope, tradeType, begun, rounds, fuel)
            == ScanFrom(page, parser, scope, tradeType, now, rounds, left)
      {
        if !ShouldScan(scope, |groups|) {
          return Done(Scan(s, seen, groups, known, passStart, latest));
        }
        var count :- page.cardCount(s);
        var found :- FirstUnseen(page, count.0, seen, count.1);
        if found.1.None? {
          s := found.0;
          break;
        }
        var (card, key) := found.1.value;
        seen := seen + {key};
        var collected :- CollectVisibleGroup(page, parser, scope, found.0, card, known, rounds);
        s, known := collected.0, collected.2;
        groups := groups + [collected.1];
        if scope.expected * RowIds(parser, collected.1.rows) != {} {
          return Done(Scan(s, seen, groups, known, passStart, latest));
        }
        left := left - 1;
      }
      if left == 0 {
        return Running;
      }
      var end :- page.atEnd(s);
      s := end.0;
      if end.1 {
        if !full {
          return Done(Scan(s, seen, groups, known, passStart, latest));
        }
        var count :- page.displayed(s, tradeType);
        s, latest := count.0, count.1;
        if |groups| >= latest {
          return Done(Scan(s, seen, groups, known, passStart, latest));
        }
        if |groups| == passStart {
          return Raised(IncompleteCollection);
        }
        passStart := |groups|;
        s :- page.reset(s);
      } else {
        s :- page.scroll(s);
      }
      left := left - 1;
    }
    return Running;
  }

  /** The group loop of `collect`. */
  method AssembleListings(parser: Parser, scope: Scope, tradeType: TradeType, groups: seq<CollectedGroup>,
                          before: seq<ListingDetail>)
    returns (r: Outcome<seq<ListingDetail>>)
    ensures r == Assemble(parser, scope, tradeType, groups, 0, before)
  {
    hide ExpectedBrokers;
    var listings := before;
    for i := 0 to |groups|
      invariant Assemble(parser, scope, tradeType, groups, 0, before)
        == Assemble(parser, scope, tradeType, groups, i, listings)
    {
      var group := groups[i];
      if !parser.readable(group.html) {
        return Raised(SelectorMismatch);
      }
      if FullScope(scope) && |group.articles| != ExpectedBrokers(parser, group) {
        return Raised(IncompleteCollection);
      }
      if FullScope(scope) && group.warned {
        return Raised(IncompleteCollection);
      }
      listings := listings + [ListingDetail(tradeType, group)];
    }
    return Done(listings);
  }

  /** `collect`, from the displayed counts of the complex panel on. */
  method CollectListings(page: Page, parser: Parser, scope: Scope, start: Screen, shown: map<TradeType, nat>,
                         rounds: nat, fuel: nat)
    returns (r: Outcome<CrawlPayload>)
    ensures r == Collect(page, parser, scope, start, shown, rounds, fuel)
    ensures r.Done? && FullScope(scope) && Distinct(scope.types) ==> Complete(page, parser, scope, shown, r.value)
  {
    ghost var whole := Collect(page, parser, scope, start, shown, rounds, fuel);
    if whole.Done? && FullScope(scope) && Distinct(scope.types) {
      FullCollection(page, parser, scope, start, shown, rounds, fuel);
    }
    hide ScanType, Assemble, NonEmpty, Complete;
    var types := NonEmpty(scope.types, shown);
    var s, known: set<ArticleId>, counts: map<TradeType, nat>, listings: seq<ListingDetail> := start, {}, shown, [];
    ghost var begun := Collected(start, {}, shown, []);
    for k := 0 to |types|
      invariant CollectFrom(page, parser, scope, types, 0, begun, rounds, fuel)
             == CollectFrom(page, parser, scope, types, k, Collected(s, known, counts, listings), rounds, fuel)
    {
      var tradeType := types[k];
      s :- page.switchTo(s, tradeType);
      var expected := if tradeType in counts then counts[tradeType] else 0;
      var scan :- ScanListingGroups(page, parser, scope, tradeType, expected, s, known, rounds, fuel);
      counts := counts[tradeType := scan.latest];
      if FullScope(scope) && scan.latest > |scan.groups| {
        return Raised(IncompleteCollection);
      }
      listings :- AssembleListings(parser, scope, tradeType, scan.groups, listings);
      s, known := scan.s, scan.known;
    }
    var partial := AnyWarned(listings) || !(scope.expected <= SetOf(ArticlesOf(listings)));
    return Done(CrawlPayload(!partial, listings, counts));
  }
}
