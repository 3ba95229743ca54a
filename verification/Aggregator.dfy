/** The aggregate of a listing's broker articles. */
module Aggregator {
  import opened Support

  datatype Article = Article(id: string, options: seq<string>, moveIn: Option<string>, loan: Option<string>,
                             fee: Option<int>, rooms: Option<int>, baths: Option<int>, warnings: seq<string>)

  datatype Loan = NoLoan | Stated | Unstated

  /** The text rules: an option's name and count, a move-in date, a loan description. */
  datatype Rules = Rules(option: string -> (string, Option<nat>), moveIn: string -> Option<string>,
                         loan: Option<string> -> Loan)

  datatype Span = NoFee | OneFee(fee: int) | FeeRange(low: int, high: int)

  datatype Tag = Plain | Counted(count: int) | CountRange(low: int, high: int)

  /** A list sorted by distinct names is the map or multiset of its entries; `roomBaths` keeps its order. */
  datatype Summary = Summary(options: map<string, Tag>, moveIns: multiset<string>, fees: Span,
                             roomBaths: multiset<(Option<int>, Option<int>)>, loans: multiset<Loan>,
                             sourceCount: nat, warnings: set<string>)

  /* ------------------------- order of ids ------------------------- */

  predicate Less(a: string, b: string)
  {
    b != "" && (a == "" || a[0] < b[0] || (a[0] == b[0] && Less(a[1..], b[1..])))
  }

  lemma {:induction false} LessTotal(a: string, b: string)
    ensures Less(a, b) || Less(b, a) || a == b
    ensures !(Less(a, b) && Less(b, a)) && !Less(a, a)
  {
    if a != "" && b != "" {
      LessTotal(a[1..], b[1..]);
      LessTotal(a[1..], a[1..]);
      assert a == [a[0]] + a[1..] && b == [b[0]] + b[1..];
    } else if a != "" {
      LessTotal(a[1..], a[1..]);
    }
  }

  lemma {:induction false} LessTransitive(a: string, b: string, c: string)
    requires Less(a, b) && Less(b, c)
    ensures Less(a, c)
  {
    if a != "" {
      if a[0] == b[0] == c[0] {
        LessTransitive(a[1..], b[1..], c[1..]);
      }
    }
  }

  /* ------------------------- unique articles ------------------------- */

  /** A stable sort by id: a new first article goes before its equals. */
  function InsertById(x: Article, s: seq<Article>): seq<Article>
  {
    if s == [] || !Less(s[0].id, x.id) then [x] + s else [s[0]] + InsertById(x, s[1..])
  }

  function SortById(articles: seq<Article>): seq<Article>
  {
    if articles == [] then [] else InsertById(articles[0], SortById(articles[1..]))
  }

  predicate HasId(s: seq<Article>, id: string)
  {
    exists i :: 0 <= i < |s| && s[i].id == id
  }

  /** The first article of each id, in order. */
  function FirstOfEach(s: seq<Article>): seq<Article>
  {
    if s == [] then []
    else
      var kept := FirstOfEach(s[..|s| - 1]);
      if HasId(kept, s[|s| - 1].id) then kept else kept + [s[|s| - 1]]
  }

  function Unique(articles: seq<Article>): seq<Article>
  {
    FirstOfEach(SortById(articles))
  }

  /** `_unique_articles`. */
  method UniqueArticles(articles: seq<Article>) returns (unique: seq<Article>)
    ensures unique == Unique(articles)
  {
    var sorted := SortById(articles);
    unique := [];
    for i := 0 to |sorted|
      invariant unique == FirstOfEach(sorted[..i])
    {
      assert sorted[..i + 1][..i] == sorted[..i];
      if !HasId(unique, sorted[i].id) {
        unique := unique + [sorted[i]];
      }
    }
    assert sorted[..|sorted|] == sorted;
  }

  ghost predicate Ascending(s: seq<Article>)
  {
    forall i, j :: 0 <= i < j < |s| ==> !Less(s[j].id, s[i].id)
  }

  ghost predicate StrictlyAscending(s: seq<Article>)
  {
    forall i, j :: 0 <= i < j < |s| ==> Less(s[i].id, s[j].id)
  }

  lemma NotLessTransitive(a: string, b: string, c: string)
    requires !Less(b, a) && !Less(c, b)
    ensures !Less(c, a)
  {
    LessTotal(a, b);
    LessTotal(b, c);
    LessTotal(a, c);
    if Less(a, b) && Less(b, c) {
      LessTransitive(a, b, c);
    }
  }

  lemma {:induction false} InsertByIdMeaning(x: Article, s: seq<Article>)
    requires Ascending(s)
    ensures Ascending(InsertById(x, s))
    ensures forall y :: y in InsertById(x, s) <==> y == x || y in s
  {
    hide Less;
    if s == [] {
    } else if !Less(s[0].id, x.id) {
      forall j | 0 <= j < |s| ensures !Less(s[j].id, x.id) {
        if j > 0 {
          NotLessTransitive(x.id, s[0].id, s[j].id);
        }
      }
    } else {
      InsertByIdMeaning(x, s[1..]);
      var rest := InsertById(x, s[1..]);
      LessTotal(s[0].id, x.id);
      forall j | 0 <= j < |rest| ensures !Less(rest[j].id, s[0].id) {
        assert rest[j] == x || rest[j] in s[1..];
      }
      assert s == [s[0]] + s[1..];
    }
  }

  lemma {:induction false} SortByIdMeaning(articles: seq<Article>)
    ensures Ascending(SortById(articles))
    ensures forall y :: y in SortById(articles) <==> y in articles
  {
    if articles != [] {
      SortByIdMeaning(articles[1..]);
      InsertByIdMeaning(articles[0], SortById(articles[1..]));
      assert articles == [articles[0]] + articles[1..];
    }
  }

  lemma {:induction false} FirstOfEachMeaning(s: seq<Article>)
    requires Ascending(s)
    ensures StrictlyAscending(FirstOfEach(s))
    ensures forall y :: y in FirstOfEach(s) ==> y in s
    ensures forall i :: 0 <= i < |s| ==> HasId(FirstOfEach(s), s[i].id)
  {
    hide Less;
    if s != [] {
      var n := |s| - 1;
      FirstOfEachMeaning(s[..n]);
      var kept, all := FirstOfEach(s[..n]), FirstOfEach(s);
      if !HasId(kept, s[n].id) {
        forall i | 0 <= i < |kept| ensures Less(kept[i].id, s[n].id) {
          assert kept[i] in s[..n];
          LessTotal(kept[i].id, s[n].id);
        }
        forall id | HasId(kept, id) ensures HasId(all, id) {
          var i :| 0 <= i < |kept| && kept[i].id == id;
          assert all[i].id == id;
        }
        assert all[|kept|].id == s[n].id;
      }
    }
  }

  /** One article per id, ascending, each from the input, and no id dropped. */
  lemma UniqueMeaning(articles: seq<Article>)
    ensures StrictlyAscending(Unique(articles))
    ensures forall y :: y in Unique(articles) ==> y in articles
    ensures forall y :: y in articles ==> HasId(Unique(articles), y.id)
  {
    SortByIdMeaning(articles);
    FirstOfEachMeaning(SortById(articles));
    hide SortById, FirstOfEach, HasId;
    forall y | y in articles ensures HasId(Unique(articles), y.id) {
      assert y in SortById(articles);
    }
  }

  /** Copies of one id are equal. */
  ghost predicate Consistent(articles: seq<Article>)
  {
    forall a, b :: a in articles && b in articles && a.id == b.id ==> a == b
  }

  ghost predicate SameArticles(a: seq<Article>, b: seq<Article>)
  {
    forall x :: x in a <==> x in b
  }

  lemma {:induction false} StrictlyAscendingUnique(a: seq<Article>, b: seq<Article>)
    requires StrictlyAscending(a) && StrictlyAscending(b) && SameArticles(a, b)
    ensures a == b
  {
    hide Less;
    assert b != [] ==> b[0] in b;
    if a != [] {
      assert a[0] in b;
      SameHead(a, b);
      forall x ensures x in a[1..] <==> x in b[1..] {
        TailMember(a, x);
        TailMember(b, x);
      }
      StrictlyAscendingUnique(a[1..], b[1..]);
      assert a == [a[0]] + a[1..] && b == [b[0]] + b[1..];
    }
  }

  lemma SameHead(a: seq<Article>, b: seq<Article>)
    requires StrictlyAscending(a) && StrictlyAscending(b) && SameArticles(a, b) && a != [] && b != []
    ensures a[0] == b[0]
  {
    hide Less;
    assert a[0] in b && b[0] in a;
    var k :| 0 <= k < |b| && b[k] == a[0];
    var m :| 0 <= m < |a| && a[m] == b[0];
    LessTotal(a[0].id, b[0].id);
  }

  lemma TailMember(s: seq<Article>, x: Article)
    requires StrictlyAscending(s) && s != []
    ensures x in s[1..] <==> x in s && x != s[0]
  {
    LessTotal(s[0].id, s[0].id);
    hide Less;
    assert s == [s[0]] + s[1..];
  }

  /** Order and repetition of the articles make no difference. */
  lemma UniqueIgnoresOrder(a: seq<Article>, b: seq<Article>)
    requires Consistent(a) && SameArticles(a, b)
    ensures Unique(a) == Unique(b)
  {
    UniqueMembers(a);
    UniqueMembers(b);
    UniqueMeaning(a);
    UniqueMeaning(b);
    hide Unique;
    StrictlyAscendingUnique(Unique(a), Unique(b));
  }

  lemma UniqueMembers(a: seq<Article>)
    requires Consistent(a)
    ensures SameArticles(Unique(a), a)
  {
    UniqueMeaning(a);
    hide Unique;
    forall x | x in a ensures x in Unique(a) {
      var i :| 0 <= i < |Unique(a)| && Unique(a)[i].id == x.id;
      assert Unique(a)[i] in a;
    }
  }

  /* ------------------------- options ------------------------- */

  datatype Reading = Unspecified | Number(n: nat)

  function ReadingOf(count: Option<nat>): Reading
  {
    if count.None? then Unspecified else Number(count.value)
  }

  /** Name and reading of every raw option that has a name. */
  function PairsOf(rules: Rules, raws: seq<string>): set<(string, Reading)>
  {
    if raws == [] then {}
    else
      var (name, count) := rules.option(raws[|raws| - 1]);
      PairsOf(rules, raws[..|raws| - 1]) + if name == "" then {} else {(name, ReadingOf(count))}
  }

  function AllPairs(rules: Rules, us: seq<Article>): set<(string, Reading)>
  {
    if us == [] then {} else AllPairs(rules, us[..|us| - 1]) + PairsOf(rules, us[|us| - 1].options)
  }

  function Readings(pairs: set<(string, Reading)>, name: string): set<Reading>
  {
    set p | p in pairs && p.0 == name :: p.1
  }

  function Numbers(readings: set<Reading>): set<nat>
  {
    set r | r in readings && r.Number? :: r.n
  }

  /** Least and greatest element. */
  function Least(s: set<int>): (m: int)
    requires s != {}
    ensures m in s && forall x :: x in s ==> m <= x
  {
    LeastExists(s);
    var m :| m in s && forall x :: x in s ==> m <= x;
    m
  }

  function Greatest(s: set<int>): (m: int)
    requires s != {}
    ensures m in s && forall x :: x in s ==> x <= m
  {
    GreatestExists(s);
    var m :| m in s && forall x :: x in s ==> x <= m;
    m
  }

  lemma {:induction false} LeastExists(s: set<int>)
    requires s != {}
    ensures exists m :: m in s && forall x :: x in s ==> m <= x
  {
    var y := Member(s);
    if s != {y} {
      LeastExists(s - {y});
      var m :| m in s - {y} && forall x :: x in s - {y} ==> m <= x;
      assert forall x :: x in s ==> x == y || x in s - {y};
      assert (if m <= y then m else y) in s;
    }
  }

  lemma {:induction false} GreatestExists(s: set<int>)
    requires s != {}
    ensures exists m :: m in s && forall x :: x in s ==> x <= m
  {
    var y := Member(s);
    if s != {y} {
      GreatestExists(s - {y});
      var m :| m in s - {y} && forall x :: x in s - {y} ==> x <= m;
      assert forall x :: x in s ==> x == y || x in s - {y};
      assert (if y <= m then m else y) in s;
    }
  }

  /** How an option is shown, and whether its readings conflict. */
  function TagOf(counts: set<int>, unspecified: bool): (Tag, bool)
  {
    if |counts| > 1 then (CountRange(Least(counts), Greatest(counts)), true)
    else if counts != {} && !unspecified then (Counted(Least(counts)), false)
    else (Plain, counts != {})
  }

  function Conflict(name: string): string
  {
    "option_count_conflict:" + name
  }

  function Names(pairs: set<(string, Reading)>): set<string>
  {
    set p | p in pairs :: p.0
  }

  /** The table of counts and the set of unspecified names, as the loop builds them. */
  ghost predicate Recorded(counts: map<string, set<nat>>, unspecified: set<string>, pairs: set<(string, Reading)>)
  {
    && (forall name :: name in counts ==> counts[name] != {})
    && (forall name, n: nat :: name in counts && n in counts[name] ==> (name, Number(n)) in pairs)
    && (forall name, n: nat :: (name, Number(n)) in pairs ==> name in counts && n in counts[name])
    && (forall name :: name in unspecified <==> (name, Unspecified) in pairs)
  }

  lemma RecordedAt(counts: map<string, set<nat>>, unspecified: set<string>, pairs: set<(string, Reading)>, name: string)
    requires Recorded(counts, unspecified, pairs)
    ensures (if name in counts then counts[name] else {}) == Numbers(Readings(pairs, name))
    ensures name in unspecified <==> Unspecified in Readings(pairs, name)
    ensures name in Names(pairs) <==> name in counts || name in unspecified
    ensures TagFor(pairs, name) == TagOf(if name in counts then counts[name] else {}, name in unspecified)
  {
    var rs, ns := Readings(pairs, name), if name in counts then counts[name] else {};
    forall n: nat ensures n in ns <==> n in Numbers(rs) {
      assert Number(n) in rs <==> (name, Number(n)) in pairs;
      assert n in Numbers(rs) <==> Number(n) in rs;
    }
    assert (name, Unspecified) in pairs <==> Unspecified in rs;
    if name in Names(pairs) {
      var p :| p in pairs && p.0 == name;
      assert p == (name, p.1);
      if p.1.Number? {
        assert (name, Number(p.1.n)) in pairs;
      }
    }
    if name in counts {
      var n := Member(counts[name]);
      assert (name, Number(n)) in pairs;
    }
  }

  /** One more reading. */
  lemma Record(counts: map<string, set<nat>>, unspecified: set<string>, pairs: set<(string, Reading)>, name: string,
               count: Option<nat>)
    requires Recorded(counts, unspecified, pairs)
    ensures var was := if name in counts then counts[name] else {};
      if count.None? then Recorded(counts, unspecified + {name}, pairs + {(name, Unspecified)})
      else Recorded(counts[name := was + {count.value}], unspecified, pairs + {(name, Number(count.value))})
  {
  }

  function TagFor(pairs: set<(string, Reading)>, name: string): (Tag, bool)
  {
    TagOf(Numbers(Readings(pairs, name)), Unspecified in Readings(pairs, name))
  }

  /** The tags of some named options, and the warnings about them. */
  function TagsOf(pairs: set<(string, Reading)>, names: set<string>): map<string, Tag>
  {
    map name | name in names :: TagFor(pairs, name).0
  }

  function ConflictsOf(pairs: set<(string, Reading)>, names: set<string>): set<string>
  {
    set name | name in names && TagFor(pairs, name).1 :: Conflict(name)
  }

  /** The first loops of `_aggregate_options`. */
  method ReadOptions(rules: Rules, us: seq<Article>) returns (counts: map<string, set<nat>>, unspecified: set<string>)
    ensures Recorded(counts, unspecified, AllPairs(rules, us))
  {
    hide Recorded, PairsOf;
    counts, unspecified := map[], {};
    NothingYet(rules, [], {}, {});
    assert us[..0] == [];
    for i := 0 to |us|
      invariant Recorded(counts, unspecified, AllPairs(rules, us[..i]))
    {
      var raws := us[i].options;
      ghost var before := AllPairs(rules, us[..i]);
      assert us[..i + 1][..i] == us[..i];
      NothingYet(rules, raws, {}, {});
      assert before + {} == before;
      for k := 0 to |raws|
        invariant Recorded(counts, unspecified, before + PairsOf(rules, raws[..k]))
      {
        PairsSnoc(rules, raws, k);
        var (name, count) := rules.option(raws[k]);
        if name == "" {
          assert PairsOf(rules, raws[..k]) + {} == PairsOf(rules, raws[..k]);
          continue;
        }
        ghost var pairs := before + PairsOf(rules, raws[..k]);
        assert before + PairsOf(rules, raws[..k + 1]) == pairs + {(name, ReadingOf(count))};
        Record(counts, unspecified, pairs, name, count);
        if count.None? {
          unspecified := unspecified + {name};
        } else {
          counts := counts[name := (if name in counts then counts[name] else {}) + {count.value}];
        }
      }
      assert raws[..|raws|] == raws;
    }
    assert us[..|us|] == us;
  }

  lemma NothingYet(rules: Rules, raws: seq<string>, pairs: set<(string, Reading)>, before: set<string>)
    ensures Recorded(map[], {}, {}) && PairsOf(rules, raws[..0]) == {}
    ensures TagsOf(pairs, {}) == map[] && before + ConflictsOf(pairs, {}) == before
  {
  }

  lemma PairsSnoc(rules: Rules, raws: seq<string>, k: nat)
    requires k < |raws|
    ensures PairsOf(rules, raws[..k + 1]) == PairsOf(rules, raws[..k])
      + (if rules.option(raws[k]).0 == "" then {} else {(rules.option(raws[k]).0, ReadingOf(rules.option(raws[k]).1))})
  {
    assert raws[..k + 1][..k] == raws[..k];
  }

  /** `_aggregate_options`. */
  method AggregateOptions(rules: Rules, us: seq<Article>, before: set<string>)
    returns (tags: map<string, Tag>, warnings: set<string>)
    ensures var pairs := AllPairs(rules, us);
      tags == TagsOf(pairs, Names(pairs)) && warnings == before + ConflictsOf(pairs, Names(pairs))
  {
    hide AllPairs, Recorded, TagOf, TagsOf, ConflictsOf, TagFor, Readings, Numbers, Names;
    ghost var pairs := AllPairs(rules, us);
    var counts, unspecified := ReadOptions(rules, us);
    tags, warnings := map[], before;
    var todo := counts.Keys + unspecified;
    forall name ensures name in todo <==> name in Names(pairs) {
      RecordedAt(counts, unspecified, pairs, name);
    }
    NothingYet(rules, [], pairs, before);
    ghost var tagged := {};
    while todo != {}
      invariant todo !! tagged && todo + tagged == Names(pairs)
      invariant tags == TagsOf(pairs, tagged) && warnings == before + ConflictsOf(pairs, tagged)
      decreases todo
    {
      var name :| name in todo;
      RecordedAt(counts, unspecified, pairs, name);
      TaggedOne(pairs, tagged, before, name);
      todo, tagged := todo - {name}, tagged + {name};
      var (tag, conflict) := TagOf(if name in counts then counts[name] else {}, name in unspecified);
      assert (tag, conflict) == TagFor(pairs, name);
      tags := tags[name := tag];
      if conflict {
        warnings := warnings + {Conflict(name)};
      }
    }
    assert tagged == Names(pairs);
  }

  lemma TaggedOne(pairs: set<(string, Reading)>, tagged: set<string>, before: set<string>, name: string)
    requires name !in tagged
    ensures TagsOf(pairs, tagged + {name}) == TagsOf(pairs, tagged)[name := TagFor(pairs, name).0]
    ensures before + ConflictsOf(pairs, tagged + {name})
         == before + ConflictsOf(pairs, tagged) + (if TagFor(pairs, name).1 then {Conflict(name)} else {})
  {
    hide TagFor, Conflict;
  }

  /* ------------------------- the summary ------------------------- */

  function MoveIns(rules: Rules, us: seq<Article>): multiset<string>
  {
    if us == [] then multiset{}
    else
      var a := us[|us| - 1];
      MoveIns(rules, us[..|us| - 1]) +
      match (if a.moveIn.None? then None else rules.moveIn(a.moveIn.value))
      case None => multiset{}
      case Some(v) => multiset{v}
  }

  function Fees(us: seq<Article>): set<int>
  {
    set a | a in us && a.fee.Some? :: a.fee.value
  }

  function RoomBaths(us: seq<Article>): multiset<(Option<int>, Option<int>)>
  {
    if us == [] then multiset{}
    else
      var a := us[|us| - 1];
      RoomBaths(us[..|us| - 1]) + if a.rooms.Some? || a.baths.Some? then multiset{(a.rooms, a.baths)} else multiset{}
  }

  function Loans(rules: Rules, us: seq<Article>): multiset<Loan>
  {
    if us == [] then multiset{} else Loans(rules, us[..|us| - 1]) + multiset{rules.loan(us[|us| - 1].loan)}
  }

  function OwnWarnings(us: seq<Article>): set<string>
  {
    set a, w | a in us && w in a.warnings :: w
  }

  function SpanOf(fees: set<int>): Span
  {
    if fees == {} then NoFee
    else if |fees| == 1 then OneFee(Least(fees))
    else FeeRange(Least(fees), Greatest(fees))
  }

  /** Several distinct values. */
  predicate Mixed<T(==)>(m: multiset<T>)
  {
    |set x | x in m| > 1
  }

  function When(condition: bool, warning: string): set<string>
  {
    if condition then {warning} else {}
  }

  /** `aggregate_broker_articles`. */
  function Aggregated(rules: Rules, articles: seq<Article>): Summary
  {
    var us := Unique(articles);
    var pairs := AllPairs(rules, us);
    Summary(TagsOf(pairs, Names(pairs)), MoveIns(rules, us), SpanOf(Fees(us)), RoomBaths(us), Loans(rules, us), |us|,
            OwnWarnings(us) + ConflictsOf(pairs, Names(pairs)) + When(Mixed(MoveIns(rules, us)), "move_in_conflict")
            + When(|Fees(us)| > 1, "management_fee_conflict") + When(Mixed(RoomBaths(us)), "room_bath_conflict")
            + When(Mixed(Loans(rules, us)), "loan_conflict"))
  }

  method AggregateBrokerArticles(rules: Rules, articles: seq<Article>) returns (summary: Summary)
    ensures summary == Aggregated(rules, articles)
  {
    hide Unique, AllPairs, TagsOf, ConflictsOf, MoveIns, RoomBaths, Loans, SpanOf, Mixed, Fees, OwnWarnings;
    var us := UniqueArticles(articles);
    var tags, warnings := AggregateOptions(rules, us, OwnWarnings(us));
    var moveIns := MoveIns(rules, us);
    if Mixed(moveIns) {
      warnings := warnings + {"move_in_conflict"};
    }
    var fees := Fees(us);
    if |fees| > 1 {
      warnings := warnings + {"management_fee_conflict"};
    }
    var roomBaths := RoomBaths(us);
    if Mixed(roomBaths) {
      warnings := warnings + {"room_bath_conflict"};
    }
    var loans := Loans(rules, us);
    if Mixed(loans) {
      warnings := warnings + {"loan_conflict"};
    }
    summary := Summary(tags, moveIns, SpanOf(fees), roomBaths, loans, |us|, warnings);
  }

  /** Reordering or repeating articles, copies of one id being equal, changes nothing. */
  lemma AggregateIgnoresOrder(rules: Rules, a: seq<Article>, b: seq<Article>)
    requires Consistent(a) && SameArticles(a, b)
    ensures Aggregated(rules, a) == Aggregated(rules, b)
  {
    UniqueIgnoresOrder(a, b);
  }

  predicate StatesMoveIn(rules: Rules, a: Article)
  {
    a.moveIn.Some? && rules.moveIn(a.moveIn.value).Some?
  }

  /** The articles that state a move-in date. */
  function Stating(rules: Rules, us: seq<Article>): set<Article>
  {
    set a | a in us && StatesMoveIn(rules, a)
  }

  function Ids(articles: seq<Article>): set<string>
  {
    set a | a in articles :: a.id
  }

  lemma {:induction false} LoansAddUp(rules: Rules, us: seq<Article>)
    ensures Loans(rules, us)[NoLoan] + Loans(rules, us)[Stated] + Loans(rules, us)[Unstated] == |us|
  {
    if us != [] {
      LoansAddUp(rules, us[..|us| - 1]);
      var loan := rules.loan(us[|us| - 1].loan);
      assert loan == NoLoan || loan == Stated || loan == Unstated;
    }
  }

  lemma {:induction false} MoveInsAddUp(rules: Rules, us: seq<Article>)
    requires StrictlyAscending(us)
    ensures |MoveIns(rules, us)| == |Stating(rules, us)|
  {
    if us != [] {
      var n := |us| - 1;
      MoveInsAddUp(rules, us[..n]);
      LastIsNew(us);
      StatingSnoc(rules, us[..n], us[n]);
      assert us == us[..n] + [us[n]];
      hide Less, Stating, StrictlyAscending;
    }
  }

  lemma StatingSnoc(rules: Rules, us: seq<Article>, a: Article)
    requires a !in us
    ensures |Stating(rules, us + [a])| == |Stating(rules, us)| + if StatesMoveIn(rules, a) then 1 else 0
  {
    assert forall x :: x in us + [a] <==> x in us || x == a;
    var less, all := Stating(rules, us), Stating(rules, us + [a]);
    if StatesMoveIn(rules, a) {
      assert all == less + {a};
    } else {
      assert all == less;
    }
  }

  lemma LastIsNew(us: seq<Article>)
    requires StrictlyAscending(us) && us != []
    ensures us[|us| - 1] !in us[..|us| - 1] && us[|us| - 1].id !in Ids(us[..|us| - 1])
  {
    LessTotal(us[|us| - 1].id, us[|us| - 1].id);
    hide Less;
    forall a | a in us[..|us| - 1] ensures a.id != us[|us| - 1].id {
      var i :| 0 <= i < |us| - 1 && us[i] == a;
    }
  }

  /** The loan counts add up to the number of distinct article ids, the move-in counts to
      the articles stating a date. */
  lemma CountsAddUp(rules: Rules, articles: seq<Article>)
    ensures var s := Aggregated(rules, articles);
      && s.sourceCount == s.loans[NoLoan] + s.loans[Stated] + s.loans[Unstated] == |Ids(articles)|
      && |s.moveIns| == |Stating(rules, Unique(articles))|
  {
    var us := Unique(articles);
    UniqueMeaning(articles);
    LoansAddUp(rules, us);
    MoveInsAddUp(rules, us);
    IdCount(us);
    UniqueIds(articles);
    hide Unique, AllPairs, TagsOf, ConflictsOf, MoveIns, RoomBaths, Loans, SpanOf, Mixed, Fees, OwnWarnings, Less, Ids;
    hide Stating, HasId;
  }

  lemma UniqueIds(articles: seq<Article>)
    ensures Ids(Unique(articles)) == Ids(articles)
  {
    UniqueMeaning(articles);
    hide Unique, Less;
    var us := Unique(articles);
    forall a | a in articles ensures a.id in Ids(us) {
      assert HasId(us, a.id);
      var i :| 0 <= i < |us| && us[i].id == a.id;
      assert us[i] in us;
    }
  }

  lemma {:induction false} IdCount(us: seq<Article>)
    requires StrictlyAscending(us)
    ensures |Ids(us)| == |us|
  {
    if us != [] {
      var n := |us| - 1;
      IdCount(us[..n]);
      LastIsNew(us);
      hide Less, StrictlyAscending;
      assert us == us[..n] + [us[n]];
      assert Ids(us) == Ids(us[..n]) + {us[n].id};
    }
  }

  /** A conflict is reported exactly when the option was read in more than one way, a missing count being one way. */
  lemma TagConflicts(pairs: set<(string, Reading)>, name: string)
    ensures TagFor(pairs, name).1 <==> |Readings(pairs, name)| > 1
  {
    var rs := Readings(pairs, name);
    var ns := Numbers(rs);
    ReadingsSplit(rs);
    assert TagFor(pairs, name).1 == (|ns| > 1 || (ns != {} && Unspecified in rs));
  }

  lemma {:induction false} ReadingsSplit(rs: set<Reading>)
    ensures |rs| == |Numbers(rs)| + (if Unspecified in rs then 1 else 0)
  {
    if rs == {} {
      assert Numbers(rs) == {};
    } else {
      var r := Member(rs);
      var rest := rs - {r};
      ReadingsSplit(rest);
      if r.Number? {
        assert Numbers(rs) == Numbers(rest) + {r.n};
        assert r.n !in Numbers(rest);
      } else {
        assert Numbers(rs) == Numbers(rest);
      }
    }
  }

  /** Apart from warnings the articles bring themselves, an option's conflict warning appears exactly when the set of
      its readings, counts and "no count given", has more than one element. */
  lemma OptionConflictExact(rules: Rules, articles: seq<Article>, name: string)
    requires Conflict(name) !in OwnWarnings(Unique(articles))
    ensures Conflict(name) in Aggregated(rules, articles).warnings <==>
      |Readings(AllPairs(rules, Unique(articles)), name)| > 1
  {
    var us := Unique(articles);
    var pairs := AllPairs(rules, us);
    hide Unique, AllPairs, TagsOf, MoveIns, RoomBaths, Loans, SpanOf, Mixed, Fees, OwnWarnings;
    NotAnotherWarning(name);
    TagConflicts(pairs, name);
    ConflictListed(pairs, name);
    hide Readings, Conflict, ConflictsOf, Names;
  }

  lemma NotAnotherWarning(name: string)
    ensures Conflict(name) !in {"move_in_conflict", "management_fee_conflict", "room_bath_conflict", "loan_conflict"}
  {
    assert Conflict(name)[0] == 'o';
  }

  lemma ConflictListed(pairs: set<(string, Reading)>, name: string)
    ensures Conflict(name) in ConflictsOf(pairs, Names(pairs)) <==> TagFor(pairs, name).1
  {
    hide TagFor;
    forall other | Conflict(other) == Conflict(name) ensures other == name {
      var n := |"option_count_conflict:"|;
      assert Conflict(other)[n..] == other && Conflict(name)[n..] == name;
    }
    if TagFor(pairs, name).1 {
      TagConflicts(pairs, name);
    }
  }
}
