/** Where a collected listing comes from: whatever the page does, key, HTML and broker rows are those of one card. */
module CollectorTurns {
  import opened Support
  import opened Collector
  import opened CollectorComplete

  /** The turn of a card: its place in view, the screen its key was asked on, and the key. */
  datatype Turn = Turn(card: nat, asked: Screen, key: Key)

  /** A broker link of the card has answered with this row. */
  ghost predicate Answered(page: Page, card: nat, row: Html)
  {
    exists s: Screen, k: nat :: page.linkRow(s, card, k).Done? && page.linkRow(s, card, k).value.1 == row
  }

  /** The group was read in this turn: the key was asked of the card, right after it the HTML, and then the card was
      opened; its rows are its own links or, if it has a single one, its HTML. */
  ghost predicate ReadIn(page: Page, g: CollectedGroup, t: Turn)
  {
    var key := page.cardKey(t.asked, t.card);
    && key.Done? && key.value.1 == t.key
    && var html := page.cardHtml(key.value.0, t.card);
       && html.Done? && html.value.1 == g.html
       && var opening := page.open(html.value.0, t.card);
          && opening.Done? && opening.value.1 != NoLink
          && (opening.value.1 == SingleLink ==> g.rows == [g.html])
          && (opening.value.1 == Opened ==> forall r :: r in g.rows ==> r != "" && Answered(page, t.card, r))
  }

  /* ------------------------- one card ------------------------- */

  lemma {:induction false} FindCardAsked(page: Page, s: Screen, seen: set<Key>, i: nat, n: nat) returns (t: Turn)
    requires FindCard(page, s, seen, i, n).Done? && FindCard(page, s, seen, i, n).value.1.Some?
    ensures var (s', found) := FindCard(page, s, seen, i, n).value;
      && found == Some((t.card, t.key)) && t.key !in seen && i <= t.card < n
      && page.cardKey(t.asked, t.card) == Done((s', t.key))
    decreases n - i
  {
    var (s1, key) := page.cardKey(s, i).value;
    if key in seen {
      t := FindCardAsked(page, s1, seen, i + 1, n);
    } else {
      t := Turn(i, s, key);
    }
  }

  /** Every row so far is a link of the card. */
  ghost predicate RowsAnswered(page: Page, card: nat, rows: seq<Row>)
  {
    forall i :: 0 <= i < |rows| ==> rows[i].html != "" && Answered(page, card, rows[i].html)
  }

  lemma {:induction false} ReadLinksAnswered(page: Page, parser: Parser, s: Screen, card: nat, i: nat, n: nat,
                                             rows: seq<Row>)
    requires RowsAnswered(page, card, rows) && ReadLinks(page, parser, s, card, i, n, rows).Done?
    ensures RowsAnswered(page, card, ReadLinks(page, parser, s, card, i, n, rows).value.1)
    decreases n - i
  {
    if i < n {
      var (s1, html) := page.linkRow(s, card, i).value;
      assert Answered(page, card, html);
      hide Answered;
      ReadLinksAnswered(page, parser, s1, card, i + 1, n, AddRow(rows, Row(parser.article(html).value, html)));
    }
  }

  lemma {:induction false} ExpandedAnswered(page: Page, parser: Parser, s: Screen, card: nat, expected: Option<nat>,
                                            rows: seq<Row>, rounds: nat)
    requires RowsAnswered(page, card, rows) && ExpandedRows(page, parser, s, card, expected, rows, rounds).Done?
    ensures RowsAnswered(page, card, ExpandedRows(page, parser, s, card, expected, rows, rounds).value.1)
    decreases rounds
  {
    var (s1, n) := page.linkCount(s, card).value;
    ReadLinksAnswered(page, parser, s1, card, 0, n, rows);
    var (s2, all) := ReadLinks(page, parser, s1, card, 0, n, rows).value;
    hide RowsAnswered;
    if expected.Some? && |all| < expected.value {
      ExpandedAnswered(page, parser, page.moreLinks(s2, card, n).value.0, card, expected, all, rounds - 1);
    }
  }

  lemma GroupRead(page: Page, parser: Parser, scope: Scope, s: Screen, t: Turn, known: set<ArticleId>, rounds: nat)
    requires page.cardKey(t.asked, t.card) == Done((s, t.key))
    requires CollectGroup(page, parser, scope, s, t.card, known, rounds).Done?
    ensures ReadIn(page, CollectGroup(page, parser, scope, s, t.card, known, rounds).value.1, t)
  {
    hide ExpandedRows, VisitRows, Answered;
    var (s1, html) := page.cardHtml(s, t.card).value;
    var (s2, opening) := page.open(s1, t.card).value;
    if opening == Opened {
      ExpandedAnswered(page, parser, s2, t.card, parser.brokers(html), [], rounds);
    }
  }

  /* ------------------------- one trade type ------------------------- */

  /** Every group has a turn of its own, and the keys of the turns are the keys seen. */
  ghost predicate TurnsOk(page: Page, groups: seq<CollectedGroup>, seen: set<Key>, turns: seq<Turn>)
  {
    && |turns| == |groups|
    && (forall i :: 0 <= i < |groups| ==> ReadIn(page, groups[i], turns[i]))
    && (forall i :: 0 <= i < |turns| ==> turns[i].key in seen)
    && (forall i, k :: 0 <= i < k < |turns| ==> turns[i].key != turns[k].key)
  }

  lemma OneMoreTurn(page: Page, groups: seq<CollectedGroup>, seen: set<Key>, turns: seq<Turn>, g: CollectedGroup,
                    t: Turn)
    requires TurnsOk(page, groups, seen, turns) && t.key !in seen && ReadIn(page, g, t)
    ensures TurnsOk(page, groups + [g], seen + {t.key}, turns + [t])
  {
    hide ReadIn;
  }

  lemma ScanMoveTurns(page: Page, parser: Parser, scope: Scope, tradeType: TradeType, c: Scan, rounds: nat,
                      turns: seq<Turn>)
    returns (turns': seq<Turn>)
    requires TurnsOk(page, c.groups, c.seen, turns) && ScanMove(page, parser, scope, tradeType, c, rounds).Done?
    ensures var m := ScanMove(page, parser, scope, tradeType, c, rounds).value.scan;
      TurnsOk(page, m.groups, m.seen, turns')
  {
    hide TurnsOk, CollectGroup, FindCard, RowIds, ReadIn;
    turns' := turns;
    if ShouldScan(scope, |c.groups|) {
      var (s1, n) := page.cardCount(c.s).value;
      var (s2, found) := FindCard(page, s1, c.seen, 0, n).value;
      if found.Some? {
        var t := FindCardAsked(page, s1, c.seen, 0, n);
        GroupRead(page, parser, scope, s2, t, c.known, rounds);
        var group := CollectGroup(page, parser, scope, s2, t.card, c.known, rounds).value.1;
        OneMoreTurn(page, c.groups, c.seen, turns, group, t);
        turns' := turns + [t];
      }
    }
  }

  lemma {:induction false} ScanTurns(page: Page, parser: Parser, scope: Scope, tradeType: TradeType, c: Scan,
                                     rounds: nat, fuel: nat, turns: seq<Turn>)
    returns (turns': seq<Turn>)
    requires TurnsOk(page, c.groups, c.seen, turns) && ScanFrom(page, parser, scope, tradeType, c, rounds, fuel).Done?
    ensures var r := ScanFrom(page, parser, scope, tradeType, c, rounds, fuel).value;
      TurnsOk(page, r.groups, r.seen, turns')
    decreases fuel
  {
    hide TurnsOk, ScanMove;
    turns' := ScanMoveTurns(page, parser, scope, tradeType, c, rounds, turns);
    var m := ScanMove(page, parser, scope, tradeType, c, rounds).value;
    if m.Next? {
      turns' := ScanTurns(page, parser, scope, tradeType, m.scan, rounds, fuel - 1, turns');
    }
  }

  /* ------------------------- the payload ------------------------- */

  /** Every listing has a turn of its own, and no card of a trade type has two. */
  ghost predicate ListingTurns(page: Page, listings: seq<ListingDetail>, turns: seq<Turn>)
  {
    && |turns| == |listings|
    && (forall i :: 0 <= i < |listings| ==> ReadIn(page, listings[i].group, turns[i]))
    && (forall i, k :: 0 <= i < k < |listings| && listings[i].scanned == listings[k].scanned ==>
          turns[i].key != turns[k].key)
  }

  lemma MoreListings(page: Page, listings: seq<ListingDetail>, turns: seq<Turn>, tt: TradeType,
                     groups: seq<CollectedGroup>, seen: set<Key>, more: seq<Turn>)
    requires ListingTurns(page, listings, turns) && TurnsOk(page, groups, seen, more)
    requires forall i :: 0 <= i < |listings| ==> listings[i].scanned != tt
    ensures ListingTurns(page, listings + Tagged(tt, groups), turns + more)
  {
    hide ReadIn;
    var all, ts, n := listings + Tagged(tt, groups), turns + more, |listings|;
    forall i | 0 <= i < |all| ensures ReadIn(page, all[i].group, ts[i]) {
      if i < n {
        assert all[i] == listings[i] && ts[i] == turns[i];
      } else {
        assert all[i].group == groups[i - n] && ts[i] == more[i - n];
      }
    }
  }

  lemma TypeTurns(page: Page, parser: Parser, scope: Scope, tt: TradeType, c: Collected, rounds: nat, fuel: nat,
                  turns: seq<Turn>, scanned: set<TradeType>)
    returns (turns': seq<Turn>)
    requires ListingTurns(page, c.listings, turns) && tt !in scanned
    requires forall i :: 0 <= i < |c.listings| ==> c.listings[i].scanned in scanned
    requires CollectType(page, parser, scope, tt, c, rounds, fuel).Done?
    ensures var r := CollectType(page, parser, scope, tt, c, rounds, fuel).value;
      && ListingTurns(page, r.listings, turns')
      && (forall i :: 0 <= i < |r.listings| ==> r.listings[i].scanned in scanned + {tt})
  {
    hide ScanFrom, Assemble, ListingTurns, ReadIn;
    var shown := if tt in c.counts then c.counts[tt] else 0;
    var s1 := page.switchTo(c.s, tt).value;
    var start := Scan(page.container(s1).value.0, {}, [], c.known, 0, shown);
    var scan := ScanFrom(page, parser, scope, tt, start, rounds, fuel).value;
    var more := ScanTurns(page, parser, scope, tt, start, rounds, fuel, []);
    AssembleOk(parser, scope, tt, scan.groups, 0, c.listings);
    assert scan.groups[0..] == scan.groups;
    MoreListings(page, c.listings, turns, tt, scan.groups, scan.seen, more);
    turns' := turns + more;
    hide TurnsOk;
    assert forall i :: 0 <= i < |c.listings| ==> (c.listings + Tagged(tt, scan.groups))[i] == c.listings[i];
  }

  lemma {:induction false} TypesTurns(page: Page, parser: Parser, scope: Scope, types: seq<TradeType>, k: nat,
                                      c: Collected, rounds: nat, fuel: nat, turns: seq<Turn>)
    returns (turns': seq<Turn>)
    requires k <= |types| && Distinct(types) && ListingTurns(page, c.listings, turns)
    requires forall i :: 0 <= i < |c.listings| ==> c.listings[i].scanned in SetOf(types[..k])
    requires CollectFrom(page, parser, scope, types, k, c, rounds, fuel).Done?
    ensures ListingTurns(page, CollectFrom(page, parser, scope, types, k, c, rounds, fuel).value.listings, turns')
    decreases |types| - k
  {
    hide CollectType, ListingTurns;
    turns' := turns;
    if k < |types| {
      assert types[..k + 1] == types[..k] + [types[k]];
      assert SetOf(types[..k + 1]) == SetOf(types[..k]) + {types[k]};
      turns' := TypeTurns(page, parser, scope, types[k], c, rounds, fuel, turns, SetOf(types[..k]));
      var next := CollectType(page, parser, scope, types[k], c, rounds, fuel).value;
      turns' := TypesTurns(page, parser, scope, types, k + 1, next, rounds, fuel, turns');
    }
  }

  /** For every page and any scope: every listing was read from one card, in a turn at which
      the key of that card had not been seen among the cards of its trade type. */
  lemma CollectedInTurns(page: Page, parser: Parser, scope: Scope, s: Screen, shown: map<TradeType, nat>, rounds: nat,
                         fuel: nat)
    returns (turns: seq<Turn>)
    requires Distinct(scope.types) && Collect(page, parser, scope, s, shown, rounds, fuel).Done?
    ensures ListingTurns(page, Collect(page, parser, scope, s, shown, rounds, fuel).value.listings, turns)
  {
    hide CollectFrom, NonEmpty;
    NonEmptyMembers(scope.types, shown);
    var types := NonEmpty(scope.types, shown);
    turns := TypesTurns(page, parser, scope, types, 0, Collected(s, {}, shown, []), rounds, fuel, []);
  }

  /* ------------------------- without details ------------------------- */

  type Visit = (Screen, ArticleId) -> Outcome<(Screen, bool)>

  lemma {:induction false} FindCardSame(page: Page, other: Visit, s: Screen, seen: set<Key>, i: nat, n: nat)
    ensures FindCard(page.(visit := other), s, seen, i, n) == FindCard(page, s, seen, i, n)
    decreases n - i
  {
    if i < n && page.cardKey(s, i).Done? {
      FindCardSame(page, other, page.cardKey(s, i).value.0, seen, i + 1, n);
    }
  }

  lemma {:induction false} ReadLinksSame(page: Page, other: Visit, parser: Parser, s: Screen, card: nat, i: nat, n: nat,
                                         rows: seq<Row>)
    ensures ReadLinks(page.(visit := other), parser, s, card, i, n, rows)
      == ReadLinks(page, parser, s, card, i, n, rows)
    decreases n - i
  {
    if i < n && page.linkRow(s, card, i).Done? && parser.article(page.linkRow(s, card, i).value.1).Done? {
      var (s1, html) := page.linkRow(s, card, i).value;
      ReadLinksSame(page, other, parser, s1, card, i + 1, n, AddRow(rows, Row(parser.article(html).value, html)));
    }
  }

  lemma {:induction false} ExpandedSame(page: Page, other: Visit, parser: Parser, s: Screen, card: nat,
                                        expected: Option<nat>, rows: seq<Row>, rounds: nat)
    ensures ExpandedRows(page.(visit := other), parser, s, card, expected, rows, rounds)
         == ExpandedRows(page, parser, s, card, expected, rows, rounds)
    decreases rounds
  {
    hide ReadLinks;
    if rounds > 0 && page.linkCount(s, card).Done? {
      var (s1, n) := page.linkCount(s, card).value;
      ReadLinksSame(page, other, parser, s1, card, 0, n, rows);
      var pass := ReadLinks(page, parser, s1, card, 0, n, rows);
      if pass.Done? && page.moreLinks(pass.value.0, card, n).Done? {
        var more := page.moreLinks(pass.value.0, card, n).value.0;
        ExpandedSame(page, other, parser, more, card, expected, pass.value.1, rounds - 1);
      }
    }
  }

  lemma {:induction false} VisitRowsSame(page: Page, other: Visit, parser: Parser, scope: Scope, rows: seq<Html>,
                                         i: nat, v: Visited)
    requires !scope.details
    ensures VisitRows(page.(visit := other), parser, scope, rows, i, v) == VisitRows(page, parser, scope, rows, i, v)
    decreases |rows| - i
  {
    if i < |rows| && parser.article(rows[i]).Done? {
      var id := parser.article(rows[i]).value;
      var next := if !ShouldVisit(scope, id) || id in v.known then v else Take(v, v.s, id);
      VisitRowsSame(page, other, parser, scope, rows, i + 1, next);
    }
  }

  lemma GroupSame(page: Page, other: Visit, parser: Parser, scope: Scope, s: Screen, card: nat, known: set<ArticleId>,
                  rounds: nat)
    requires !scope.details
    ensures CollectGroup(page.(visit := other), parser, scope, s, card, known, rounds)
         == CollectGroup(page, parser, scope, s, card, known, rounds)
  {
    hide ExpandedRows, VisitRows;
    if page.cardHtml(s, card).Done? && page.open(page.cardHtml(s, card).value.0, card).Done? {
      var (s1, html) := page.cardHtml(s, card).value;
      var s2 := page.open(s1, card).value.0;
      VisitRowsSame(page, other, parser, scope, [html], 0, Visited(s2, [], known, false));
      ExpandedSame(page, other, parser, s2, card, parser.brokers(html), [], rounds);
      var pass := ExpandedRows(page, parser, s2, card, parser.brokers(html), [], rounds);
      if pass.Done? {
        VisitRowsSame(page, other, parser, scope, Htmls(pass.value.1), 0, Visited(pass.value.0, [], known, false));
      }
    }
  }

  lemma {:induction false} ScanSame(page: Page, other: Visit, parser: Parser, scope: Scope, tt: TradeType, c: Scan,
                                    rounds: nat, fuel: nat)
    requires !scope.details
    ensures ScanFrom(page.(visit := other), parser, scope, tt, c, rounds, fuel)
         == ScanFrom(page, parser, scope, tt, c, rounds, fuel)
    decreases fuel
  {
    hide ScanMove;
    MoveSame(page, other, parser, scope, tt, c, rounds);
    var m := ScanMove(page, parser, scope, tt, c, rounds);
    if fuel > 0 && m.Done? && m.value.Next? {
      ScanSame(page, other, parser, scope, tt, m.value.scan, rounds, fuel - 1);
    }
  }

  lemma MoveSame(page: Page, other: Visit, parser: Parser, scope: Scope, tt: TradeType, c: Scan, rounds: nat)
    requires !scope.details
    ensures ScanMove(page.(visit := other), parser, scope, tt, c, rounds)
         == ScanMove(page, parser, scope, tt, c, rounds)
  {
    hide FindCard, CollectGroup, RowIds;
    if page.cardCount(c.s).Done? {
      var (s1, n) := page.cardCount(c.s).value;
      FindCardSame(page, other, s1, c.seen, 0, n);
      var r := FindCard(page, s1, c.seen, 0, n);
      if r.Done? && r.value.1.Some? {
        GroupSame(page, other, parser, scope, r.value.0, r.value.1.value.0, c.known, rounds);
      }
    }
  }

  lemma {:induction false} TypesSame(page: Page, other: Visit, parser: Parser, scope: Scope, types: seq<TradeType>,
                                     k: nat, c: Collected, rounds: nat, fuel: nat)
    requires !scope.details
    ensures CollectFrom(page.(visit := other), parser, scope, types, k, c, rounds, fuel)
         == CollectFrom(page, parser, scope, types, k, c, rounds, fuel)
    decreases |types| - k
  {
    hide CollectType;
    if k < |types| {
      TypeSame(page, other, parser, scope, types[k], c, rounds, fuel);
      var next := CollectType(page, parser, scope, types[k], c, rounds, fuel);
      if next.Done? {
        TypesSame(page, other, parser, scope, types, k + 1, next.value, rounds, fuel);
      }
    }
  }

  lemma TypeSame(page: Page, other: Visit, parser: Parser, scope: Scope, tt: TradeType, c: Collected, rounds: nat,
                 fuel: nat)
    requires !scope.details
    ensures CollectType(page.(visit := other), parser, scope, tt, c, rounds, fuel)
         == CollectType(page, parser, scope, tt, c, rounds, fuel)
  {
    hide ScanFrom, Assemble;
    if page.switchTo(c.s, tt).Done? && page.container(page.switchTo(c.s, tt).value).Done? {
      var shown := if tt in c.counts then c.counts[tt] else 0;
      var s1 := page.container(page.switchTo(c.s, tt).value).value.0;
      ScanSame(page, other, parser, scope, tt, Scan(s1, {}, [], c.known, 0, shown), rounds, fuel);
    }
  }

  /** With broker details switched off no article is visited: however the page would answer
      a visit, the collection is the same. */
  lemma NothingVisited(page: Page, other: Visit, parser: Parser, scope: Scope, s: Screen, shown: map<TradeType, nat>,
                       rounds: nat, fuel: nat)
    requires !scope.details
    ensures Collect(page.(visit := other), parser, scope, s, shown, rounds, fuel)
         == Collect(page, parser, scope, s, shown, rounds, fuel)
  {
    hide CollectFrom, NonEmpty;
    TypesSame(page, other, parser, scope, NonEmpty(scope.types, shown), 0, Collected(s, {}, shown, []), rounds, fuel);
  }
}
