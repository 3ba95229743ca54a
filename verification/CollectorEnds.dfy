/** Termination: on a page with finitely many cards and links whose scrolling makes progress, a collection ends. */
module CollectorEnds {
  import opened Support
  import opened Collector
  import opened CollectorComplete

  /** No question stays unanswered; raising counts as an answer. */
  ghost predicate Answers(page: Page, parser: Parser)
  {
    && (forall s :: page.container(s) != Running && page.cardCount(s) != Running)
    && (forall s, i :: page.cardKey(s, i) != Running && page.cardHtml(s, i) != Running && page.open(s, i) != Running)
    && (forall s, i :: page.linkCount(s, i) != Running && page.close(s, i) != Running)
    && (forall s, i, k :: page.linkRow(s, i, k) != Running && page.moreLinks(s, i, k) != Running)
    && (forall s, a :: page.visit(s, a) != Running)
    && (forall s :: page.atEnd(s) != Running && page.reset(s) != Running && page.scroll(s) != Running)
    && (forall s, tt :: page.displayed(s, tt) != Running && page.switchTo(s, tt) != Running)
    && (forall html :: parser.article(html) != Running)
  }

  /** Looking at the cards does not scroll, and a scroll short of the end leaves less to scroll. */
  ghost predicate Scrolls(page: Page, remaining: Screen -> nat)
  {
    && (forall s :: page.cardCount(s).Done? ==> remaining(page.cardCount(s).value.0) <= remaining(s))
    && (forall s, i :: page.cardKey(s, i).Done? ==> remaining(page.cardKey(s, i).value.0) <= remaining(s))
    && (forall s :: page.atEnd(s).Done? && !page.atEnd(s).value.1 && page.scroll(page.atEnd(s).value.0).Done? ==>
          remaining(page.scroll(page.atEnd(s).value.0).value) < remaining(s))
  }

  /** At most `links` broker links are ever attached, and a link that was waited for is there at the next count. */
  ghost predicate Loads(page: Page, links: nat)
  {
    && (forall s, i :: page.linkCount(s, i).Done? ==> page.linkCount(s, i).value.1 <= links)
    && (forall s, i, n :: page.moreLinks(s, i, n).Done? && page.moreLinks(s, i, n).value.1 ==>
          var counted := page.linkCount(page.moreLinks(s, i, n).value.0, i);
          counted.Done? ==> counted.value.1 > n)
  }

  ghost predicate Fair(page: Page, parser: Parser, keys: set<Key>, links: nat, remaining: Screen -> nat)
  {
    && Answers(page, parser) && Scrolls(page, remaining) && Loads(page, links)
    && forall s, i :: page.cardKey(s, i).Done? ==> page.cardKey(s, i).value.1 in keys
  }

  /* ------------------------- one move ends ------------------------- */

  lemma {:induction false} FindCardEnds(page: Page, parser: Parser, keys: set<Key>, links: nat,
                                        remaining: Screen -> nat, s: Screen, seen: set<Key>, i: nat, n: nat)
    requires Fair(page, parser, keys, links, remaining)
    ensures var r := FindCard(page, s, seen, i, n);
      && r != Running
      && (r.Done? ==> remaining(r.value.0) <= remaining(s))
      && (r.Done? && r.value.1.Some? ==> r.value.1.value.1 in keys - seen)
    decreases n - i
  {
    if i < n && page.cardKey(s, i).Done? {
      FindCardEnds(page, parser, keys, links, remaining, page.cardKey(s, i).value.0, seen, i + 1, n);
    }
  }

  lemma {:induction false} ReadLinksEnds(page: Page, parser: Parser, s: Screen, card: nat, i: nat, n: nat,
                                         rows: seq<Row>)
    requires Answers(page, parser)
    ensures ReadLinks(page, parser, s, card, i, n, rows) != Running
    decreases n - i
  {
    if i < n && page.linkRow(s, card, i).Done? && parser.article(page.linkRow(s, card, i).value.1).Done? {
      var (s1, html) := page.linkRow(s, card, i).value;
      ReadLinksEnds(page, parser, s1, card, i + 1, n, AddRow(rows, Row(parser.article(html).value, html)));
    }
  }

  /** `counted`: no more links than this were attached at the last pass. */
  lemma {:induction false} ExpandedRowsEnd(page: Page, parser: Parser, links: nat, s: Screen, card: nat,
                                           expected: Option<nat>, rows: seq<Row>, counted: int, rounds: nat)
    requires Answers(page, parser) && Loads(page, links) && -1 <= counted <= links && rounds + counted > links
    requires page.linkCount(s, card).Done? ==> page.linkCount(s, card).value.1 > counted
    ensures ExpandedRows(page, parser, s, card, expected, rows, rounds) != Running
    decreases rounds
  {
    if page.linkCount(s, card).Done? {
      var (s1, n) := page.linkCount(s, card).value;
      ReadLinksEnds(page, parser, s1, card, 0, n, rows);
      var pass := ReadLinks(page, parser, s1, card, 0, n, rows);
      if pass.Done? && page.moreLinks(pass.value.0, card, n).Done? && page.moreLinks(pass.value.0, card, n).value.1 {
        var more := page.moreLinks(pass.value.0, card, n).value.0;
        ExpandedRowsEnd(page, parser, links, more, card, expected, pass.value.1, n, rounds - 1);
      }
    }
  }

  lemma {:induction false} VisitRowsEnd(page: Page, parser: Parser, scope: Scope, rows: seq<Html>, i: nat, v: Visited)
    requires Answers(page, parser)
    ensures VisitRows(page, parser, scope, rows, i, v) != Running
    decreases |rows| - i
  {
    if i < |rows| && parser.article(rows[i]).Done? {
      var next := AfterRow(page, parser, scope, rows[i], v);
      if next.Done? {
        VisitRowsEnd(page, parser, scope, rows, i + 1, next.value);
      }
    }
  }

  lemma CollectGroupEnds(page: Page, parser: Parser, scope: Scope, links: nat, s: Screen, card: nat,
                         known: set<ArticleId>, rounds: nat)
    requires Answers(page, parser) && Loads(page, links) && rounds > links + 1
    ensures CollectGroup(page, parser, scope, s, card, known, rounds) != Running
  {
    hide VisitRows, ExpandedRows, Loads;
    if page.cardHtml(s, card).Done? && page.open(page.cardHtml(s, card).value.0, card).Done? {
      var (s1, html) := page.cardHtml(s, card).value;
      var s2 := page.open(s1, card).value.0;
      VisitRowsEnd(page, parser, scope, [html], 0, Visited(s2, [], known, false));
      ExpandedRowsEnd(page, parser, links, s2, card, parser.brokers(html), [], -1, rounds);
      var pass := ExpandedRows(page, parser, s2, card, parser.brokers(html), [], rounds);
      if pass.Done? {
        VisitRowsEnd(page, parser, scope, Htmls(pass.value.1), 0, Visited(pass.value.0, [], known, false));
      }
    }
  }

  /* ------------------------- the scan ends ------------------------- */

  ghost predicate Bounded(keys: set<Key>, c: Scan)
  {
    c.seen <= keys && |c.seen| == |c.groups| && c.start <= |c.groups|
  }

  /** Pass starts, cards and scrolling, in that order, never go back. */
  ghost predicate Advances(keys: set<Key>, remaining: Screen -> nat, c: Scan, c': Scan)
  {
    || c'.start > c.start
    || (c'.start == c.start && |c'.seen| > |c.seen|)
    || (c'.start == c.start && |c'.seen| == |c.seen| && remaining(c'.s) < remaining(c.s))
  }

  lemma SeenGrows(keys: set<Key>, seen: set<Key>, key: Key)
    requires seen <= keys && key in keys - seen
    ensures seen + {key} <= keys && |seen + {key}| == |seen| + 1 <= |keys|
  {
    SubsetSize(seen + {key}, keys);
  }

  lemma {:induction false} SubsetSize(a: set<Key>, b: set<Key>)
    requires a <= b
    ensures |a| <= |b|
  {
    if k :| k in a {
      SubsetSize(a - {k}, b - {k});
    }
  }

  /** Every iteration of the scan loop raises, returns or advances. */
  lemma ScanMoveAdvances(page: Page, parser: Parser, scope: Scope, tt: TradeType, keys: set<Key>, links: nat,
                         remaining: Screen -> nat, c: Scan, rounds: nat)
    requires Fair(page, parser, keys, links, remaining) && rounds > links + 1 && Bounded(keys, c)
    ensures var m := ScanMove(page, parser, scope, tt, c, rounds);
      && m != Running
      && (m.Done? && m.value.Next? ==> Bounded(keys, m.value.scan) && Advances(keys, remaining, c, m.value.scan))
  {
    assert Answers(page, parser) && Scrolls(page, remaining) && Loads(page, links);
    assert page.cardCount(c.s).Done? ==> remaining(page.cardCount(c.s).value.0) <= remaining(c.s);
    hide FindCard, CollectGroup, EndOfCards, RowIds, Loads, Scrolls;
    if page.cardCount(c.s).Done? {
      var (s1, n) := page.cardCount(c.s).value;
      FindCardEnds(page, parser, keys, links, remaining, s1, c.seen, 0, n);
      var r := FindCard(page, s1, c.seen, 0, n);
      if r.Done? && r.value.1.None? {
        EndOfCardsAdvances(page, parser, scope, tt, keys, remaining, c, c.(s := r.value.0));
      } else if r.Done? {
        CollectGroupEnds(page, parser, scope, links, r.value.0, r.value.1.value.0, c.known, rounds);
        SeenGrows(keys, c.seen, r.value.1.value.1);
      }
    }
  }

  lemma EndOfCardsAdvances(page: Page, parser: Parser, scope: Scope, tt: TradeType, keys: set<Key>,
                           remaining: Screen -> nat, c: Scan, c1: Scan)
    requires Answers(page, parser) && Scrolls(page, remaining) && Bounded(keys, c)
    requires c1 == c.(s := c1.s) && remaining(c1.s) <= remaining(c.s)
    ensures var m := EndOfCards(page, scope, tt, c1);
      && m != Running
      && (m.Done? && m.value.Next? ==> Bounded(keys, m.value.scan) && Advances(keys, remaining, c, m.value.scan))
  {
    var end := page.atEnd(c1.s);
    assert end != Running;
    if end.Done? {
      var s1 := end.value.0;
      assert page.scroll(s1) != Running && page.displayed(s1, tt) != Running;
      if !end.value.1 {
        assert page.scroll(s1).Done? ==> remaining(page.scroll(s1).value) < remaining(c1.s);
      } else if page.displayed(s1, tt).Done? {
        assert page.reset(page.displayed(s1, tt).value.0) != Running;
      }
    }
    hide Answers, Scrolls;
  }

  /** The scan loop ends: (cards not yet collected at the pass start, cards not yet seen, what is left to scroll)
      falls lexicographically. */
  lemma {:induction false} ScanEnds(page: Page, parser: Parser, scope: Scope, tt: TradeType, keys: set<Key>, links: nat,
                                    remaining: Screen -> nat, c: Scan, rounds: nat) returns (fuel: nat)
    requires Fair(page, parser, keys, links, remaining) && rounds > links + 1 && Bounded(keys, c)
    ensures ScanFrom(page, parser, scope, tt, c, rounds, fuel) != Running
    decreases |keys| - c.start, |keys| - |c.seen|, remaining(c.s)
  {
    hide Fair, ScanMove;
    ScanMoveAdvances(page, parser, scope, tt, keys, links, remaining, c, rounds);
    SubsetSize(c.seen, keys);
    var m := ScanMove(page, parser, scope, tt, c, rounds);
    fuel := 1;
    if m.Done? && m.value.Next? {
      SubsetSize(m.value.scan.seen, keys);
      var rest := ScanEnds(page, parser, scope, tt, keys, links, remaining, m.value.scan, rounds);
      fuel := rest + 1;
    }
  }

  /* ------------------------- the collection ends ------------------------- */

  /** A loop that ended within its rounds ends alike with more of them. */
  lemma {:induction false} ScanMore(page: Page, parser: Parser, scope: Scope, tt: TradeType, c: Scan, rounds: nat,
                                    fuel: nat, more: nat)
    requires ScanFrom(page, parser, scope, tt, c, rounds, fuel) != Running && fuel <= more
    ensures ScanFrom(page, parser, scope, tt, c, rounds, more) == ScanFrom(page, parser, scope, tt, c, rounds, fuel)
    decreases fuel
  {
    hide ScanMove;
    var m := ScanMove(page, parser, scope, tt, c, rounds);
    if fuel > 0 && m.Done? && m.value.Next? {
      ScanMore(page, parser, scope, tt, m.value.scan, rounds, fuel - 1, more - 1);
    }
  }

  lemma TypeMore(page: Page, parser: Parser, scope: Scope, tt: TradeType, c: Collected, rounds: nat, fuel: nat,
                 more: nat)
    requires CollectType(page, parser, scope, tt, c, rounds, fuel) != Running && fuel <= more
    ensures CollectType(page, parser, scope, tt, c, rounds, more)
      == CollectType(page, parser, scope, tt, c, rounds, fuel)
  {
    hide ScanFrom, Assemble;
    var s1 := page.switchTo(c.s, tt);
    if s1.Done? && page.container(s1.value).Done? {
      var start :=
        Scan(page.container(s1.value).value.0, {}, [], c.known, 0, if tt in c.counts then c.counts[tt] else 0);
      if ScanFrom(page, parser, scope, tt, start, rounds, fuel) != Running {
        ScanMore(page, parser, scope, tt, start, rounds, fuel, more);
      }
    }
  }

  lemma {:induction false} CollectMore(page: Page, parser: Parser, scope: Scope, types: seq<TradeType>, k: nat,
                                       c: Collected, rounds: nat, fuel: nat, more: nat)
    requires CollectFrom(page, parser, scope, types, k, c, rounds, fuel) != Running && fuel <= more
    ensures CollectFrom(page, parser, scope, types, k, c, rounds, more)
      == CollectFrom(page, parser, scope, types, k, c, rounds, fuel)
    decreases |types| - k
  {
    hide CollectType;
    if k < |types| {
      TypeMore(page, parser, scope, types[k], c, rounds, fuel, more);
      var next := CollectType(page, parser, scope, types[k], c, rounds, fuel);
      if next.Done? {
        CollectMore(page, parser, scope, types, k + 1, next.value, rounds, fuel, more);
      }
    }
  }

  lemma {:induction false} AssembleEnds(parser: Parser, scope: Scope, tt: TradeType, groups: seq<CollectedGroup>,
                                        i: nat, listings: seq<ListingDetail>)
    ensures Assemble(parser, scope, tt, groups, i, listings) != Running
    decreases |groups| - i
  {
    if i < |groups| {
      AssembleEnds(parser, scope, tt, groups, i + 1, listings + [ListingDetail(tt, groups[i])]);
    }
  }

  lemma TypeEnds(page: Page, parser: Parser, scope: Scope, tt: TradeType, keys: set<Key>, links: nat,
                 remaining: Screen -> nat, c: Collected, rounds: nat) returns (fuel: nat)
    requires Fair(page, parser, keys, links, remaining) && rounds > links + 1
    ensures CollectType(page, parser, scope, tt, c, rounds, fuel) != Running
  {
    assert Answers(page, parser);
    hide Fair, ScanFrom, Assemble;
    fuel := 0;
    var s1 := page.switchTo(c.s, tt);
    if s1.Done? && page.container(s1.value).Done? {
      var start :=
        Scan(page.container(s1.value).value.0, {}, [], c.known, 0, if tt in c.counts then c.counts[tt] else 0);
      fuel := ScanEnds(page, parser, scope, tt, keys, links, remaining, start, rounds);
      var scan := ScanFrom(page, parser, scope, tt, start, rounds, fuel);
      if scan.Done? {
        AssembleEnds(parser, scope, tt, scan.value.groups, 0, c.listings);
      }
    }
  }

  lemma {:induction false} TypesEnd(page: Page, parser: Parser, scope: Scope, keys: set<Key>, links: nat,
                                    remaining: Screen -> nat, types: seq<TradeType>, k: nat, c: Collected, rounds: nat)
    returns (fuel: nat)
    requires Fair(page, parser, keys, links, remaining) && rounds > links + 1
    ensures CollectFrom(page, parser, scope, types, k, c, rounds, fuel) != Running
    decreases |types| - k
  {
    hide Fair, CollectType;
    fuel := 0;
    if k < |types| {
      var first := TypeEnds(page, parser, scope, types[k], keys, links, remaining, c, rounds);
      var next := CollectType(page, parser, scope, types[k], c, rounds, first);
      fuel := first;
      if next.Done? {
        var rest := TypesEnd(page, parser, scope, keys, links, remaining, types, k + 1, next.value, rounds);
        fuel := first + rest;
        TypeMore(page, parser, scope, types[k], c, rounds, first, fuel);
        CollectMore(page, parser, scope, types, k + 1, next.value, rounds, rest, fuel);
      }
    }
  }

  /** On a fair page every collection, of whatever scope, returns or raises. */
  lemma CollectEnds(page: Page, parser: Parser, scope: Scope, s: Screen, shown: map<TradeType, nat>,
                    keys: set<Key>, links: nat, remaining: Screen -> nat) returns (rounds: nat, fuel: nat)
    requires Fair(page, parser, keys, links, remaining)
    ensures Collect(page, parser, scope, s, shown, rounds, fuel) != Running
  {
    hide Fair, CollectFrom, NonEmpty;
    rounds := links + 2;
    var types, start := NonEmpty(scope.types, shown), Collected(s, {}, shown, []);
    fuel := TypesEnd(page, parser, scope, keys, links, remaining, types, 0, start, rounds);
  }
}
