/** Rows of the database tables that the listing history is kept in, and the payload of one crawl. */
module Tables {
  import opened Support
  import opened Comparator

  type RunId = nat
  type SourceId = nat
  type GroupId = nat
  type Time = int

  datatype Status = Queued | Running | Completed | Partial | Failed | Blocked | Cancelled

  predicate IsActive(s: Status)
  {
    s in {Queued, Running}
  }

  predicate IsTerminal(s: Status)
  {
    s in {Completed, Partial, Failed, Blocked, Cancelled}
  }

  /** Statuses under which a run has stored results. */
  predicate IsResult(s: Status)
  {
    s in {Completed, Partial}
  }

  /** The columns a listing snapshot copies from the observed listing. */
  datatype Columns = Columns(
    tradeType: string,
    price: Option<int>,
    deposit: Option<int>,
    monthlyRent: Option<int>,
    building: Option<string>,
    floor: Option<string>,
    direction: Option<string>,
    supplyArea: Option<int>,
    exclusiveArea: Option<int>)

  datatype Aggregate = Aggregate(
    optionTags: seq<string>,
    moveIn: string,
    managementFee: string,
    roomBath: string,
    loan: string,
    sourceCount: int)

  /** `crawl_runs`; a run's id is its position, so ids follow creation. */
  datatype Run = Run(source: SourceId, status: Status, collectDetails: bool, delayPreset: nat,
                     progress: nat, finishedAt: Option<Time>)

  /** `listing_groups`; a group's id is its position. */
  datatype Group = Group(complexId: string, identityKey: nat)

  /** `listing_snapshots` with its aggregate row. */
  datatype Snapshot = Snapshot(run: RunId, group: GroupId, columns: Columns, aggregate: Aggregate,
                               event: Option<Kind>, at: Time)

  /** `source_listing_states`. */
  datatype StateRow = StateRow(visibility: Visibility, missingCount: nat, firstSeenAt: Time, lastSeenAt: Time,
                               removedAt: Option<Time>, updatedAt: Time)

  /** The `before`/`after` payload of an event. */
  datatype Body =
    | Observed(before: Option<Comparable>, after: Comparable)
    | Edited(change: Change)
    | Unseen(beforeState: Visibility, beforeCount: nat, afterState: Visibility, afterCount: nat)

  /** `change_events`. */
  datatype Event = Event(run: RunId, group: GroupId, kind: Kind, body: Body, at: Time)

  /** One observed listing with the aggregate of its broker articles. */
  datatype Listing = Listing(columns: Columns, aggregate: Aggregate, articles: seq<ArticleId>)

  datatype Payload = Payload(complexId: string, completed: bool, listings: seq<Listing>, at: Time)

  function ArticleSet(l: Listing): set<ArticleId>
  {
    set a | a in l.articles
  }

  function MakeComparable(c: Columns, a: Aggregate, articleIds: set<ArticleId>): Comparable
  {
    Comparable(c.price, c.deposit, c.monthlyRent, c.building, c.floor, c.direction, c.supplyArea, c.exclusiveArea,
               a.managementFee, a.moveIn, a.roomBath, a.loan, multiset(a.optionTags), a.sourceCount, articleIds)
  }

  /** `_incoming_comparable`. */
  function Incoming(l: Listing): Comparable
  {
    MakeComparable(l.columns, l.aggregate, ArticleSet(l))
  }
}
