/** The browser collection loop against a page that may answer every question in any way. */
module Collector {
  import opened Support

  type Key = string
  type Html = string
  type TradeType = string

  datatype Fault = SelectorMismatch | IncompleteCollection | UnsafeTarget | PageError

  /** `Running`: the page has not answered, or a loop has used up the rounds it was given. */
  datatype Outcome<+T> = Done(value: T) | Raised(fault: Fault) | Running
  {
    predicate IsFailure()
    {
      !Done?
    }

    function PropagateFailure<U>(): Outcome<U>
      requires IsFailure()
    {
      match this
      case Raised(f) => Outcome<U>.Raised(f)
      case Running => Outcome<U>.Running
    }

    function Extract(): T
      requires Done?
    {
      value
    }
  }

  datatype Opening = Opened | SingleLink | NoLink

  /** The state of the page, of which nothing is known. */
  type Screen(!new, ==)

  /** The page: each question may be answered in any way or raise, and may change the page. Cards
      are asked by their place among those in view, broker links by card and place. */
  datatype Page = Page(
    container: Screen -> Outcome<(Screen, bool)>,
    cardCount: Screen -> Outcome<(Screen, nat)>,
    cardKey: (Screen, nat) -> Outcome<(Screen, Key)>,
    cardHtml: (Screen, nat) -> Outcome<(Screen, Html)>,
    open: (Screen, nat) -> Outcome<(Screen, Opening)>,
    linkCount: (Screen, nat) -> Outcome<(Screen, nat)>,
    linkRow: (Screen, nat, nat) -> Outcome<(Screen, Html)>,
    moreLinks: (Screen, nat, nat) -> Outcome<(Screen, bool)>,
    visit: (Screen, ArticleId) -> Outcome<(Screen, bool)>,
    close: (Screen, nat) -> Outcome<Screen>,
    atEnd: Screen -> Outcome<(Screen, bool)>,
    displayed: (Screen, TradeType) -> Outcome<(Screen, nat)>,
    reset: Screen -> Outcome<Screen>,
    scroll: Screen -> Outcome<Screen>,
    switchTo: (Screen, TradeType) -> Outcome<Screen>)

  /** The parsers of captured HTML: the broker count a card displays, whether a card is
      readable, and the article a row links to. */
  datatype Parser = Parser(brokers: Html -> Option<nat>, readable: Html -> bool, article: Html -> Outcome<ArticleId>)

  datatype Scope = Scope(types: seq<TradeType>, limit: Option<nat>, expected: set<ArticleId>, details: bool)

  /** `warned`: some article's details could not be parsed. */
  datatype CollectedGroup = CollectedGroup(html: Html, rows: seq<Html>, articles: seq<ArticleId>, warned: bool)

  datatype ListingDetail = ListingDetail(scanned: TradeType, group: CollectedGroup)

  datatype CrawlPayload = CrawlPayload(completed: bool, listings: seq<ListingDetail>, counts: map<TradeType, nat>)

  predicate FullScope(scope: Scope)
  {
    scope.limit.None? && scope.expected == {}
  }

  predicate ShouldScan(scope: Scope, scanned: nat)
  {
    scope.limit.None? || scanned < scope.limit.value
  }

  predicate ShouldVisit(scope: Scope, a: ArticleId)
  {
    scope.expected == {} || a in scope.expected
  }

  /* ------------------------- what the loops compute ------------------------- */

  /** First card from the `i`-th on whose key was not seen. */
  function FindCard(page: Page, s: Screen, seen: set<Key>, i: nat, n: nat): Outcome<(Screen, Option<(nat, Key)>)>
    decreases n - i
  {
    if i >= n then Done((s, None))
    else
      var (s1, key) :- page.cardKey(s, i);
      if key in seen then FindCard(page, s1, seen, i + 1, n) else Done((s1, Some((i, key))))
  }

  datatype Row = Row(id: ArticleId, html: Html)

  predicate HasRow(rows: seq<Row>, id: ArticleId)
  {
    exists k :: 0 <= k < |rows| && rows[k].id == id
  }

  /** `setdefault`. */
  function AddRow(rows: seq<Row>, r: Row): seq<Row>
  {
    if HasRow(rows, r.id) then rows else rows + [r]
  }

  /** One pass over the attached broker links of a card, from the `i`-th on. */
  function ReadLinks(page: Page, parser: Parser, s: Screen, card: nat, i: nat, n: nat, rows: seq<Row>)
    : Outcome<(Screen, seq<Row>)>
    decreases n - i
  {
    if i >= n then Done((s, rows))
    else
      var (s1, html) :- page.linkRow(s, card, i);
      if html == "" then Raised(SelectorMismatch)
      else
        var id :- parser.article(html);
        ReadLinks(page, parser, s1, card, i + 1, n, AddRow(rows, Row(id, html)))
  }

  /** `_collect_expanded_broker_rows`, for at most `rounds` passes. */
  function ExpandedRows(page: Page, parser: Parser, s: Screen, card: nat, expected: Option<nat>, rows: seq<Row>,
                        rounds: nat)
    : Outcome<(Screen, seq<Row>)>
    decreases rounds
  {
    if rounds == 0 then Running
    else
      var (s1, n) :- page.linkCount(s, card);
      var (s2, all) :- ReadLinks(page, parser, s1, card, 0, n, rows);
      if expected.None? || |all| >= expected.value then Done((s2, all))
      else
        var (s3, more) :- page.moreLinks(s2, card, n);
        if !more then Raised(IncompleteCollection)
        else ExpandedRows(page, parser, s3, card, expected, all, rounds - 1)
  }

  datatype Visited = Visited(s: Screen, articles: seq<ArticleId>, known: set<ArticleId>, warned: bool)

  function Take(v: Visited, s: Screen, id: ArticleId): Visited
  {
    v.(s := s, articles := v.articles + [id], known := v.known + {id})
  }

  /** The article loop of `_collect_visible_group`, from the `i`-th row on. */
  function VisitRows(page: Page, parser: Parser, scope: Scope, rows: seq<Html>, i: nat, v: Visited): Outcome<Visited>
    decreases |rows| - i
  {
    if i >= |rows| then Done(v)
    else
      var id :- parser.article(rows[i]);
      if !ShouldVisit(scope, id) || id in v.known then VisitRows(page, parser, scope, rows, i + 1, v)
      else if !scope.details then VisitRows(page, parser, scope, rows, i + 1, Take(v, v.s, id))
      else
        var (s1, collected) :- page.visit(v.s, id);
        VisitRows(page, parser, scope, rows, i + 1, if collected then Take(v, s1, id) else v.(s := s1, warned := true))
  }

  function Htmls(rows: seq<Row>): seq<Html>
  {
    seq(|rows|, i requires 0 <= i < |rows| => rows[i].html)
  }

  /** `_collect_visible_group`. */
  function CollectGroup(page: Page, parser: Parser, scope: Scope, s: Screen, card: nat, known: set<ArticleId>,
                        rounds: nat)
    : Outcome<(Screen, CollectedGroup, set<ArticleId>)>
  {
    var (s1, html) :- page.cardHtml(s, card);
    var (s2, opening) :- page.open(s1, card);
    match opening
    case NoLink => Raised(SelectorMismatch)
    case SingleLink =>
      var v :- VisitRows(page, parser, scope, [html], 0, Visited(s2, [], known, false));
      Done((v.s, CollectedGroup(html, [html], v.articles, v.warned), v.known))
    case Opened =>
      var (s3, rows) :- ExpandedRows(page, parser, s2, card, parser.brokers(html), [], rounds);
      var v :- VisitRows(page, parser, scope, Htmls(rows), 0, Visited(s3, [], known, false));
      var s4 :- page.close(v.s, card);
      Done((s4, CollectedGroup(html, Htmls(rows), v.articles, v.warned), v.known))
  }

  /** Articles linked from the rows. */
  function RowIds(parser: Parser, rows: seq<Html>): set<ArticleId>
  {
    set r | r in rows && parser.article(r).Done? :: parser.article(r).value
  }

  /** Variables of the scan loop; `start` is `full_pass_start_count`. */
  datatype Scan = Scan(s: Screen, seen: set<Key>, groups: seq<CollectedGroup>, known: set<ArticleId>,
                       start: nat, latest: nat)

  datatype Move = Next(scan: Scan) | Return(scan: Scan)

  /** The part of the scan loop after the cards in view are exhausted. */
  function EndOfCards(page: Page, scope: Scope, tradeType: TradeType, c: Scan): Outcome<Move>
  {
    var (s1, atEnd) :- page.atEnd(c.s);
    if !atEnd then
      var s2 :- page.scroll(s1);
      Done(Next(c.(s := s2)))
    else if !FullScope(scope) then Done(Return(c.(s := s1)))
    else
      var (s2, latest) :- page.displayed(s1, tradeType);
      if |c.groups| >= latest then Done(Return(c.(s := s2, latest := latest)))
      else if |c.groups| == c.start then Raised(IncompleteCollection)
      else
        var s3 :- page.reset(s2);
        Done(Next(c.(s := s3, latest := latest, start := |c.groups|)))
  }

  /** One iteration of the inner loop; when it finds no card, the rest of the outer iteration. */
  function ScanMove(page: Page, parser: Parser, scope: Scope, tradeType: TradeType, c: Scan, rounds: nat): Outcome<Move>
  {
    if !ShouldScan(scope, |c.groups|) then Done(Return(c))
    else
      var (s1, n) :- page.cardCount(c.s);
      var (s2, found) :- FindCard(page, s1, c.seen, 0, n);
      if found.None? then EndOfCards(page, scope, tradeType, c.(s := s2))
      else
        var (s3, group, known) :- CollectGroup(page, parser, scope, s2, found.value.0, c.known, rounds);
        var next := c.(s := s3, seen := c.seen + {found.value.1}, groups := c.groups + [group], known := known);
        if scope.expected * RowIds(parser, group.rows) != {} then Done(Return(next)) else Done(Next(next))
  }

  /** `_scan_listing_groups` from a state of its loop, for at most `fuel` iterations. */
  function ScanFrom(page: Page, parser: Parser, scope: Scope, tradeType: TradeType, c: Scan, rounds: nat,
                    fuel: nat): Outcome<Scan>
    decreases fuel
  {
    if fuel == 0 then Running
    else
      var move :- ScanMove(page, parser, scope, tradeType, c, rounds);
      if move.Return? then Done(move.scan) else ScanFrom(page, parser, scope, tradeType, move.scan, rounds, fuel - 1)
  }

  function ScanType(page: Page, parser: Parser, scope: Scope, tradeType: TradeType, shown: nat, s: Screen,
                    known: set<ArticleId>, rounds: nat, fuel: nat): Outcome<Scan>
  {
    var (s1, present) :- page.container(s);
    if !present then Raised(SelectorMismatch)
    else ScanFrom(page, parser, scope, tradeType, Scan(s1, {}, [], known, 0, shown), rounds, fuel)
  }

  /** `expected_broker_count`. */
  function ExpectedBrokers(parser: Parser, g: CollectedGroup): nat
  {
    match parser.brokers(g.html)
    case Some(n) => n
    case None => |RowIds(parser, g.rows)|
  }

  /** The group loop of `collect`, from the `i`-th group on. */
  function Assemble(parser: Parser, scope: Scope, tradeType: TradeType, groups: seq<CollectedGroup>, i: nat,
                    listings: seq<ListingDetail>)
    : Outcome<seq<ListingDetail>>
    decreases |groups| - i
  {
    if i >= |groups| then Done(listings)
    else if !parser.readable(groups[i].html) then Raised(SelectorMismatch)
    else if FullScope(scope) && |groups[i].articles| != ExpectedBrokers(parser, groups[i])
      then Raised(IncompleteCollection)
    else if FullScope(scope) && groups[i].warned then Raised(IncompleteCollection)
    else Assemble(parser, scope, tradeType, groups, i + 1, listings + [ListingDetail(tradeType, groups[i])])
  }

  datatype Collected = Collected(s: Screen, known: set<ArticleId>, counts: map<TradeType, nat>,
                                 listings: seq<ListingDetail>)

  /** The trade types with something to scan. */
  function NonEmpty(types: seq<TradeType>, counts: map<TradeType, nat>): seq<TradeType>
  {
    if types == [] then []
    else
      var tt := types[|types| - 1];
      NonEmpty(types[..|types| - 1], counts) + if tt in counts && counts[tt] > 0 then [tt] else []
  }

  /** One trade type of `collect`. */
  function CollectType(page: Page, parser: Parser, scope: Scope, tt: TradeType, c: Collected, rounds: nat,
                       fuel: nat): Outcome<Collected>
  {
    var s1 :- page.switchTo(c.s, tt);
    var shown := if tt in c.counts then c.counts[tt] else 0;
    var scan :- ScanType(page, parser, scope, tt, shown, s1, c.known, rounds, fuel);
    if FullScope(scope) && scan.latest > |scan.groups| then Raised(IncompleteCollection)
    else
      var listings :- Assemble(parser, scope, tt, scan.groups, 0, c.listings);
      Done(Collected(scan.s, scan.known, c.counts[tt := scan.latest], listings))
  }

  /** The trade type loop of `collect`, from the `k`-th type on. */
  function CollectFrom(page: Page, parser: Parser, scope: Scope, types: seq<TradeType>, k: nat, c: Collected,
                       rounds: nat, fuel: nat)
    : Outcome<Collected>
    decreases |types| - k
  {
    if k >= |types| then Done(c)
    else
      var next :- CollectType(page, parser, scope, types[k], c, rounds, fuel);
      CollectFrom(page, parser, scope, types, k + 1, next, rounds, fuel)
  }

  function ArticlesOf(listings: seq<ListingDetail>): seq<ArticleId>
  {
    if listings == [] then []
    else ArticlesOf(listings[..|listings| - 1]) + listings[|listings| - 1].group.articles
  }

  predicate AnyWarned(listings: seq<ListingDetail>)
  {
    exists i :: 0 <= i < |listings| && listings[i].group.warned
  }

  /** `collect`, from the displayed counts of the complex panel on. */
  function Collect(page: Page, parser: Parser, scope: Scope, s: Screen, shown: map<TradeType, nat>, rounds: nat,
                   fuel: nat)
    : Outcome<CrawlPayload>
  {
    var start := Collected(s, {}, shown, []);
    var c :- CollectFrom(page, parser, scope, NonEmpty(scope.types, shown), 0, start, rounds, fuel);
    Done(CrawlPayload(!AnyWarned(c.listings) && scope.expected <= SetOf(ArticlesOf(c.listings)), c.listings, c.counts))
  }
}
