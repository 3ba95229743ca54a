/** The notification list: pages that follow a cursor over (created at, id), newest first. */
module Notifications {
  import opened Support

  type UserId = nat

  /** Ids are ordered as numbers, instants as microseconds. */
  datatype Key = Key(createdAt: int, id: nat)

  datatype Note = Note(key: Key, user: UserId, read: bool)

  datatype Page = Page(items: seq<Note>, next: Option<Key>)

  predicate Before(a: Key, b: Key)
  {
    a.createdAt < b.createdAt || (a.createdAt == b.createdAt && a.id < b.id)
  }

  predicate Wanted(n: Note, user: UserId, unreadOnly: bool)
  {
    n.user == user && (unreadOnly ==> !n.read)
  }

  /** Newest first; no two rows have the same key. */
  ghost predicate Descending(ns: seq<Note>)
  {
    forall i, j :: 0 <= i < j < |ns| ==> Before(ns[j].key, ns[i].key)
  }

  ghost predicate DistinctIds(ns: seq<Note>)
  {
    forall i, j :: 0 <= i < j < |ns| ==> ns[i].key.id != ns[j].key.id
  }

  /* ------------------------- the query ------------------------- */

  function Insert(n: Note, ns: seq<Note>): seq<Note>
  {
    if ns == [] || Before(ns[0].key, n.key) then [n] + ns else [ns[0]] + Insert(n, ns[1..])
  }

  /** The user's rows, ordered by created at and id, newest first. */
  function Ordered(table: seq<Note>, user: UserId, unreadOnly: bool): seq<Note>
  {
    if table == [] then []
    else
      var rest := Ordered(table[1..], user, unreadOnly);
      if Wanted(table[0], user, unreadOnly) then Insert(table[0], rest) else rest
  }

  /** The rows strictly after the cursor in that order. */
  function After(ns: seq<Note>, cursor: Option<Key>): seq<Note>
  {
    if ns == [] then []
    else if cursor.None? || Before(ns[0].key, cursor.value) then [ns[0]] + After(ns[1..], cursor)
    else After(ns[1..], cursor)
  }

  /** One row more than the limit is read to see whether there is a next page. */
  function FirstPage(all: seq<Note>, limit: nat): Page
  {
    var rows := all[..if |all| <= limit + 1 then |all| else limit + 1];
    var items := rows[..if |rows| <= limit then |rows| else limit];
    Page(items, if |rows| > limit && items != [] then Some(items[|items| - 1].key) else None)
  }

  /** `list`. */
  function List(table: seq<Note>, user: UserId, unreadOnly: bool, cursor: Option<Key>, limit: nat): Page
  {
    FirstPage(After(Ordered(table, user, unreadOnly), cursor), limit)
  }

  /* ------------------------- its meaning ------------------------- */

  lemma {:induction false} InsertKeeps(n: Note, ns: seq<Note>)
    ensures multiset(Insert(n, ns)) == multiset(ns) + multiset{n}
  {
    if ns != [] && !Before(ns[0].key, n.key) {
      InsertKeeps(n, ns[1..]);
      assert ns == [ns[0]] + ns[1..];
    }
  }

  lemma {:induction false} InsertDescends(n: Note, ns: seq<Note>)
    requires Descending(ns) && forall i :: 0 <= i < |ns| ==> ns[i].key.id != n.key.id
    ensures Descending(Insert(n, ns))
  {
    if ns != [] && !Before(ns[0].key, n.key) {
      InsertDescends(n, ns[1..]);
      InsertKeeps(n, ns[1..]);
      var rest := Insert(n, ns[1..]);
      hide Insert;
      forall j | 0 <= j < |rest| ensures Before(rest[j].key, ns[0].key) {
        assert rest[j] in multiset(rest);
        assert rest[j] in ns[1..] || rest[j] == n;
      }
    }
  }

  /** The ordered rows are exactly the wanted ones, each as often as in the table. */
  lemma {:induction false} OrderedMeaning(table: seq<Note>, user: UserId, unreadOnly: bool)
    requires DistinctIds(table)
    ensures Descending(Ordered(table, user, unreadOnly))
    ensures forall n ::
      multiset(Ordered(table, user, unreadOnly))[n] == if Wanted(n, user, unreadOnly) then multiset(table)[n] else 0
  {
    if table != [] {
      OrderedMeaning(table[1..], user, unreadOnly);
      assert table == [table[0]] + table[1..];
      var rest := Ordered(table[1..], user, unreadOnly);
      forall i | 0 <= i < |rest| ensures rest[i].key.id != table[0].key.id {
        assert rest[i] in multiset(rest);
        assert rest[i] in table[1..];
      }
      InsertDescends(table[0], rest);
      InsertKeeps(table[0], rest);
    }
  }

  lemma {:induction false} AfterAll(ns: seq<Note>, cursor: Option<Key>)
    requires forall i :: 0 <= i < |ns| ==> cursor.None? || Before(ns[i].key, cursor.value)
    ensures After(ns, cursor) == ns
  {
    if ns != [] {
      AfterAll(ns[1..], cursor);
    }
  }

  /** After the key of a row come the rows behind it. */
  lemma {:induction false} AfterRow(ns: seq<Note>, k: nat)
    requires Descending(ns) && k < |ns|
    ensures After(ns, Some(ns[k].key)) == ns[k + 1..]
  {
    if k == 0 {
      AfterAll(ns[1..], Some(ns[0].key));
    } else {
      AfterRow(ns[1..], k - 1);
      assert ns[1..][k - 1] == ns[k] && ns[1..][k..] == ns[k + 1..];
    }
  }

  /** The cursor of the page that starts at row `k`. */
  function CursorAt(all: seq<Note>, k: nat): Option<Key>
    requires k <= |all|
  {
    if k == 0 then None else Some(all[k - 1].key)
  }

  lemma AfterCursor(all: seq<Note>, k: nat)
    requires Descending(all) && k <= |all|
    ensures After(all, CursorAt(all, k)) == all[k..]
  {
    if k == 0 {
      AfterAll(all, None);
      assert all[0..] == all;
    } else {
      AfterRow(all, k - 1);
    }
    hide After, Descending;
  }

  /** The page that starts at row `k`, and where the next one starts. */
  lemma PageFrom(all: seq<Note>, limit: nat, k: nat)
    requires k <= |all| && limit >= 1
    ensures var p := FirstPage(all[k..], limit);
      if k + limit < |all| then p.items == all[k..k + limit] && p.next == CursorAt(all, k + limit) && p.next.Some?
      else p.items == all[k..] && p.next == None
  {
    var rest := all[k..];
    if k + limit < |all| {
      var rows := rest[..if |rest| <= limit + 1 then |rest| else limit + 1];
      assert rows[..limit] == all[k..k + limit];
    } else {
      assert rest[..|rest|] == rest;
    }
  }

  /** The items of the pages from a cursor on; at most `pages` of them are read. */
  function Follow(table: seq<Note>, user: UserId, unreadOnly: bool, limit: nat, cursor: Option<Key>,
                  pages: nat): Option<seq<Note>>
    decreases pages
  {
    if pages == 0 then None
    else
      var p := List(table, user, unreadOnly, cursor, limit);
      if p.next.None? then Some(p.items)
      else
        match Follow(table, user, unreadOnly, limit, p.next, pages - 1)
        case None => None
        case Some(rest) => Some(p.items + rest)
  }

  lemma {:induction false} FollowFrom(table: seq<Note>, user: UserId, unreadOnly: bool, limit: nat, k: nat, pages: nat)
    requires DistinctIds(table) && limit >= 1 && k <= |Ordered(table, user, unreadOnly)|
    requires pages > |Ordered(table, user, unreadOnly)| - k
    ensures Follow(table, user, unreadOnly, limit, CursorAt(Ordered(table, user, unreadOnly), k), pages)
         == Some(Ordered(table, user, unreadOnly)[k..])
    decreases pages
  {
    var all := Ordered(table, user, unreadOnly);
    hide *;
    OrderedMeaning(table, user, unreadOnly);
    AfterCursor(all, k);
    PageFrom(all, limit, k);
    FollowIs(table, user, unreadOnly, limit, CursorAt(all, k), pages);
    if k + limit < |all| {
      FollowFrom(table, user, unreadOnly, limit, k + limit, pages - 1);
      assert all[k..] == all[k..k + limit] + all[k + limit..];
    }
  }

  lemma FollowIs(table: seq<Note>, user: UserId, unreadOnly: bool, limit: nat, cursor: Option<Key>, pages: nat)
    requires pages > 0
    ensures var p := FirstPage(After(Ordered(table, user, unreadOnly), cursor), limit);
      Follow(table, user, unreadOnly, limit, cursor, pages) ==
        if p.next.None? then Some(p.items)
        else
          var rest := Follow(table, user, unreadOnly, limit, p.next, pages - 1);
          if rest.None? then None else Some(p.items + rest.value)
  {
    hide FirstPage, After, Ordered;
  }

  /** Following the cursor from the start stops, after no more pages than one per row and one more, and has
      then listed every notification of the user exactly once, newest first, whatever the limit. */
  lemma FollowListsAll(table: seq<Note>, user: UserId, unreadOnly: bool, limit: nat)
    requires DistinctIds(table) && limit >= 1
    ensures var all := Follow(table, user, unreadOnly, limit, None, |Ordered(table, user, unreadOnly)| + 1);
      && all.Some? && Descending(all.value)
      && forall n :: multiset(all.value)[n] == if Wanted(n, user, unreadOnly) then multiset(table)[n] else 0
  {
    var all := Ordered(table, user, unreadOnly);
    FollowFrom(table, user, unreadOnly, limit, 0, |all| + 1);
    assert all[0..] == all;
    OrderedMeaning(table, user, unreadOnly);
  }

  /* ------------------------- one page ------------------------- */

  predicate Older(a: Key, b: Key)
  {
    a.createdAt < b.createdAt || (a.createdAt == b.createdAt && a.id < b.id)
  }

  /** The user's rows, only unread ones if asked for, that are older than the cursor. */
  predicate Follows(table: seq<Note>, user: UserId, unreadOnly: bool, cursor: Option<Key>, n: Note)
  {
    n in table && n.user == user && (unreadOnly ==> !n.read) && (cursor.Some? ==> Older(n.key, cursor.value))
  }

  lemma {:induction false} AfterMeaning(ns: seq<Note>, cursor: Option<Key>)
    requires Descending(ns)
    ensures Descending(After(ns, cursor))
    ensures forall n :: n in After(ns, cursor) <==> n in ns && (cursor.Some? ==> Older(n.key, cursor.value))
  {
    if ns != [] {
      AfterMeaning(ns[1..], cursor);
      assert ns == [ns[0]] + ns[1..];
      var rest := After(ns[1..], cursor);
      forall i | 0 <= i < |rest| ensures Before(rest[i].key, ns[0].key) {
        assert rest[i] in ns[1..];
      }
    }
  }

  /** A page, of any cursor: the newest rows that follow it, newest first, as many as the limit allows; a next cursor
      exactly when rows are left, and then the key of the last item. */
  lemma PageExact(table: seq<Note>, user: UserId, unreadOnly: bool, cursor: Option<Key>, limit: nat)
    requires DistinctIds(table)
    ensures var p := List(table, user, unreadOnly, cursor, limit);
      && |p.items| <= limit
      && (forall i, j :: 0 <= i < j < |p.items| ==> Older(p.items[j].key, p.items[i].key))
      && (forall n :: n in p.items ==> Follows(table, user, unreadOnly, cursor, n))
      && (forall n :: Follows(table, user, unreadOnly, cursor, n) && n !in p.items ==>
            |p.items| == limit && forall m :: m in p.items ==> Older(n.key, m.key))
      && (p.next.Some? <==> limit > 0 && exists n :: Follows(table, user, unreadOnly, cursor, n) && n !in p.items)
      && (p.next.Some? ==> p.items != [] && p.next.value == p.items[|p.items| - 1].key)
  {
    var all := Ordered(table, user, unreadOnly);
    OrderedMeaning(table, user, unreadOnly);
    forall n ensures n in all <==> n in table && Wanted(n, user, unreadOnly) {
      assert n in all <==> multiset(all)[n] > 0;
      assert n in table <==> multiset(table)[n] > 0;
    }
    AfterMeaning(all, cursor);
    var rest := After(all, cursor);
    forall n ensures n in rest <==> Follows(table, user, unreadOnly, cursor, n) {
    }
    hide Ordered, After, Follows, Wanted;
    FirstRows(rest, limit);
  }

  lemma FirstRows(all: seq<Note>, limit: nat)
    requires Descending(all)
    ensures var p := FirstPage(all, limit);
      && |p.items| <= limit && p.items <= all
      && (forall i, j :: 0 <= i < j < |p.items| ==> Older(p.items[j].key, p.items[i].key))
      && (forall n :: n in p.items ==> n in all)
      && (forall n :: n in all && n !in p.items ==>
            |p.items| == limit && forall m :: m in p.items ==> Older(n.key, m.key))
      && (p.next.Some? <==> limit > 0 && exists n :: n in all && n !in p.items)
      && (p.next.Some? ==> p.items != [] && p.next.value == p.items[|p.items| - 1].key)
  {
    var p := FirstPage(all, limit);
    var k := if |all| <= limit then |all| else limit;
    assert p.items == all[..k] && (p.next.Some? <==> k < |all| && k > 0);
    hide FirstPage;
    Taken(all, p.items, k);
    if k < |all| {
      assert all[k] in all;
    } else {
      assert p.items == all;
    }
  }

  /** The first `k` rows, and that those behind them are older. */
  lemma Taken(all: seq<Note>, items: seq<Note>, k: nat)
    requires Descending(all) && k <= |all| && items == all[..k]
    ensures forall i, j :: 0 <= i < j < |items| ==> Older(items[j].key, items[i].key)
    ensures forall i :: k <= i < |all| ==> all[i] !in items
    ensures forall n, m :: n in all && n !in items && m in items ==> Older(n.key, m.key)
  {
    assert forall i :: 0 <= i < k ==> items[i] == all[i];
    forall n, m | n in all && n !in items && m in items ensures Older(n.key, m.key) {
      var i :| 0 <= i < |all| && all[i] == n;
      var j :| 0 <= j < |items| && items[j] == m;
      assert i >= k;
    }
    forall i | k <= i < |all| ensures all[i] !in items {
      forall j | 0 <= j < k ensures items[j] != all[i] {
        assert Before(all[i].key, all[j].key);
      }
    }
  }
}
