/** What the aggregate of a listing's articles says, said of the articles themselves. */
module Summaries {
  import opened Support
  import opened Aggregator

  /** The `i`-th article is the first one with its id; later copies are ignored. */
  predicate IsFirst(articles: seq<Article>, i: nat)
  {
    i < |articles| && forall k :: 0 <= k < i ==> articles[k].id != articles[i].id
  }

  /** The distinct articles with a property, by position. */
  ghost function Firsts(articles: seq<Article>, p: Article -> bool): set<nat>
  {
    set i: nat | i < |articles| && IsFirst(articles, i) && p(articles[i])
  }

  /* ------------------------- the articles that are kept ------------------------- */

  function FirstOf(s: seq<Article>, id: string): Option<Article>
  {
    if s == [] then None else if s[0].id == id then Some(s[0]) else FirstOf(s[1..], id)
  }

  lemma {:induction false} FirstInserted(x: Article, s: seq<Article>, id: string)
    ensures FirstOf(InsertById(x, s), id) == if x.id == id then Some(x) else FirstOf(s, id)
  {
    if s != [] && Less(s[0].id, x.id) {
      LessTotal(s[0].id, x.id);
      FirstInserted(x, s[1..], id);
    } else {
      assert ([x] + s)[1..] == s;
    }
  }

  lemma {:induction false} FirstSorted(articles: seq<Article>, id: string)
    ensures FirstOf(SortById(articles), id) == FirstOf(articles, id)
  {
    if articles != [] {
      FirstSorted(articles[1..], id);
      FirstInserted(articles[0], SortById(articles[1..]), id);
    }
  }

  lemma {:induction false} FirstSnoc(p: seq<Article>, a: Article, id: string)
    ensures FirstOf(p + [a], id) ==
      if FirstOf(p, id).Some? then FirstOf(p, id) else if a.id == id then Some(a) else None
  {
    if p == [] {
      assert [] + [a] == [a];
    } else {
      FirstSnoc(p[1..], a, id);
      assert (p + [a])[1..] == p[1..] + [a];
    }
  }

  lemma {:induction false} FirstExists(s: seq<Article>, id: string)
    ensures FirstOf(s, id).Some? <==> HasId(s, id)
  {
    if s != [] {
      FirstExists(s[1..], id);
      if HasId(s, id) && s[0].id != id {
        var i :| 0 <= i < |s| && s[i].id == id;
        assert s[1..][i - 1].id == id;
      }
      if HasId(s[1..], id) {
        var i :| 0 <= i < |s[1..]| && s[1..][i].id == id;
        assert s[i + 1].id == id;
      }
    }
  }

  lemma {:induction false} KeptIsFirst(s: seq<Article>, y: Article)
    requires Ascending(s) && y in FirstOfEach(s)
    ensures FirstOf(s, y.id) == Some(y)
  {
    hide Less;
    var n := |s| - 1;
    assert s == s[..n] + [s[n]];
    FirstSnoc(s[..n], s[n], y.id);
    if y in FirstOfEach(s[..n]) {
      KeptIsFirst(s[..n], y);
    } else {
      FirstOfEachMeaning(s[..n]);
      FirstExists(s[..n], y.id);
    }
  }

  lemma {:induction false} FirstAt(s: seq<Article>, y: Article)
    ensures FirstOf(s, y.id) == Some(y) <==> exists i: nat :: IsFirst(s, i) && s[i] == y
  {
    if s != [] {
      FirstAt(s[1..], y);
      if i: nat :| IsFirst(s[1..], i) && s[1..][i] == y && s[0].id != y.id {
        assert IsFirst(s, i + 1) && s[i + 1] == y;
      }
      if i: nat :| IsFirst(s, i) && s[i] == y {
        if i > 0 {
          assert s[0].id != y.id;
          forall k | 0 <= k < i - 1 ensures s[1..][k].id != y.id {
            assert s[k + 1].id != y.id;
          }
          assert IsFirst(s[1..], i - 1) && s[1..][i - 1] == y;
        }
      }
    }
  }

  /** Of each id exactly the first copy is kept. */
  lemma UniqueFirst(articles: seq<Article>, y: Article)
    ensures y in Unique(articles) <==> exists i: nat :: IsFirst(articles, i) && articles[i] == y
  {
    SortByIdMeaning(articles);
    FirstSorted(articles, y.id);
    FirstAt(articles, y);
    hide Less, SortById;
    var s := SortById(articles);
    if y in Unique(articles) {
      KeptIsFirst(s, y);
    }
    if i: nat :| IsFirst(articles, i) && articles[i] == y {
      FirstOfEachMeaning(s);
      assert y in s;
      var k :| 0 <= k < |s| && s[k] == y;
      var m :| 0 <= m < |FirstOfEach(s)| && FirstOfEach(s)[m].id == y.id;
      KeptIsFirst(s, FirstOfEach(s)[m]);
    }
  }

  /* ------------------------- counting ------------------------- */

  function Sub(us: seq<Article>, p: Article -> bool): set<Article>
  {
    set x | x in us && p(x)
  }

  lemma SubSnoc(us: seq<Article>, a: Article, p: Article -> bool)
    requires a !in us
    ensures |Sub(us + [a], p)| == |Sub(us, p)| + if p(a) then 1 else 0
  {
    assert forall x :: x in us + [a] <==> x in us || x == a;
    if p(a) {
      assert Sub(us + [a], p) == Sub(us, p) + {a};
    } else {
      assert Sub(us + [a], p) == Sub(us, p);
    }
  }

  function Image(s: set<nat>, articles: seq<Article>): set<Article>
    requires forall i :: i in s ==> i < |articles|
  {
    set i | i in s :: articles[i]
  }

  lemma {:induction false} ImageSize(s: set<nat>, articles: seq<Article>)
    requires forall i :: i in s ==> i < |articles| && IsFirst(articles, i)
    ensures |Image(s, articles)| == |s|
  {
    if i :| i in s {
      ImageSize(s - {i}, articles);
      forall k | k in s - {i} ensures articles[k].id != articles[i].id {
        TwoFirsts(articles, i, k);
      }
      hide IsFirst;
      assert Image(s, articles) == Image(s - {i}, articles) + {articles[i]};
    }
  }

  lemma TwoFirsts(articles: seq<Article>, i: nat, k: nat)
    requires IsFirst(articles, i) && IsFirst(articles, k) && i != k
    ensures articles[i].id != articles[k].id
  {
  }

  lemma FirstsCounted(articles: seq<Article>, p: Article -> bool)
    ensures |Firsts(articles, p)| == |Sub(Unique(articles), p)|
  {
    var s := Firsts(articles, p);
    ImageSize(s, articles);
    hide Unique, IsFirst;
    forall y ensures y in Sub(Unique(articles), p) <==> y in Image(s, articles) {
      UniqueFirst(articles, y);
    }
    assert Sub(Unique(articles), p) == Image(s, articles);
  }

  /** `us` without its last article, which is not among the others. */
  lemma Shrinks(us: seq<Article>)
    requires StrictlyAscending(us) && us != []
    ensures var n := |us| - 1;
      StrictlyAscending(us[..n]) && us[n] !in us[..n] && us == us[..n] + [us[n]]
  {
    LastIsNew(us);
    hide Less;
  }

  /** The move-in date that the article states. */
  function MoveInOf(rules: Rules, a: Article): Option<string>
  {
    if a.moveIn.None? then None else rules.moveIn(a.moveIn.value)
  }

  lemma {:induction false} LoansCounted(rules: Rules, us: seq<Article>, loan: Loan)
    requires StrictlyAscending(us)
    ensures Loans(rules, us)[loan] == |Sub(us, (a: Article) => rules.loan(a.loan) == loan)|
  {
    if us != [] {
      Shrinks(us);
      hide StrictlyAscending, Sub;
      LoansCounted(rules, us[..|us| - 1], loan);
      SubSnoc(us[..|us| - 1], us[|us| - 1], (a: Article) => rules.loan(a.loan) == loan);
    }
  }

  lemma {:induction false} MoveInsCounted(rules: Rules, us: seq<Article>, v: string)
    requires StrictlyAscending(us)
    ensures MoveIns(rules, us)[v] == |Sub(us, (a: Article) => MoveInOf(rules, a) == Some(v))|
  {
    if us != [] {
      Shrinks(us);
      hide StrictlyAscending, Sub;
      MoveInsCounted(rules, us[..|us| - 1], v);
      SubSnoc(us[..|us| - 1], us[|us| - 1], (a: Article) => MoveInOf(rules, a) == Some(v));
    }
  }

  lemma {:induction false} RoomBathsCounted(us: seq<Article>, rooms: Option<int>, baths: Option<int>)
    requires StrictlyAscending(us)
    ensures RoomBaths(us)[(rooms, baths)] ==
      if rooms.None? && baths.None? then 0 else |Sub(us, (a: Article) => a.rooms == rooms && a.baths == baths)|
  {
    if us != [] {
      Shrinks(us);
      hide StrictlyAscending, Sub;
      RoomBathsCounted(us[..|us| - 1], rooms, baths);
      SubSnoc(us[..|us| - 1], us[|us| - 1], (a: Article) => a.rooms == rooms && a.baths == baths);
    }
  }

  /* ------------------------- the summaries ------------------------- */

  /** For every label as many as distinct articles are classified so. */
  lemma LoanSummary(rules: Rules, articles: seq<Article>, loan: Loan)
    ensures Aggregated(rules, articles).loans[loan]
         == |Firsts(articles, (a: Article) => rules.loan(a.loan) == loan)|
  {
    UniqueMeaning(articles);
    LoansCounted(rules, Unique(articles), loan);
    FirstsCounted(articles, (a: Article) => rules.loan(a.loan) == loan);
    hide Unique, AllPairs, TagsOf, ConflictsOf, MoveIns, RoomBaths, Loans, SpanOf, Mixed, Fees, OwnWarnings;
    hide Firsts, Sub;
    hide StrictlyAscending, HasId;
  }

  /** For every date as many as distinct articles state it. */
  lemma MoveInSummary(rules: Rules, articles: seq<Article>, v: string)
    ensures Aggregated(rules, articles).moveIns[v]
         == |Firsts(articles, (a: Article) => MoveInOf(rules, a) == Some(v))|
  {
    UniqueMeaning(articles);
    MoveInsCounted(rules, Unique(articles), v);
    FirstsCounted(articles, (a: Article) => MoveInOf(rules, a) == Some(v));
    hide Unique, AllPairs, TagsOf, ConflictsOf, MoveIns, RoomBaths, Loans, SpanOf, Mixed, Fees, OwnWarnings;
    hide Firsts, Sub;
    hide StrictlyAscending, HasId;
  }

  /** For every pair of counts as many as distinct articles state it, articles stating neither left aside. */
  lemma RoomBathSummary(rules: Rules, articles: seq<Article>, rooms: Option<int>, baths: Option<int>)
    ensures Aggregated(rules, articles).roomBaths[(rooms, baths)] ==
      if rooms.None? && baths.None? then 0
      else |Firsts(articles, (a: Article) => a.rooms == rooms && a.baths == baths)|
  {
    UniqueMeaning(articles);
    RoomBathsCounted(Unique(articles), rooms, baths);
    FirstsCounted(articles, (a: Article) => a.rooms == rooms && a.baths == baths);
    hide Unique, AllPairs, TagsOf, ConflictsOf, MoveIns, RoomBaths, Loans, SpanOf, Mixed, Fees, OwnWarnings;
    hide Firsts, Sub;
    hide StrictlyAscending, HasId;
  }

  /** Some distinct article states this fee. */
  ghost predicate StatesFee(articles: seq<Article>, fee: int)
  {
    exists i: nat :: IsFirst(articles, i) && articles[i].fee == Some(fee)
  }

  /** The span runs from the least to the greatest stated fee. */
  ghost predicate SpanTold(articles: seq<Article>, span: Span)
  {
    match span
    case NoFee => forall fee :: !StatesFee(articles, fee)
    case OneFee(f) => forall fee :: StatesFee(articles, fee) <==> fee == f
    case FeeRange(low, high) =>
      && low < high && StatesFee(articles, low) && StatesFee(articles, high)
      && forall fee :: StatesFee(articles, fee) ==> low <= fee <= high
  }

  lemma FeesTold(articles: seq<Article>, fee: int)
    ensures fee in Fees(Unique(articles)) <==> StatesFee(articles, fee)
  {
    forall y ensures y in Unique(articles) <==> exists i: nat :: IsFirst(articles, i) && articles[i] == y {
      UniqueFirst(articles, y);
    }
    hide Unique, IsFirst;
  }

  lemma {:induction false} SubsetCount<T>(a: set<T>, b: set<T>)
    requires a <= b
    ensures |a| <= |b|
  {
    if x :| x in a {
      SubsetCount(a - {x}, b - {x});
    }
  }

  lemma SizeOne<T>(s: set<T>, a: T, b: T)
    requires |s| <= 1 && a in s && b in s
    ensures a == b
  {
    if a != b {
      assert {a, b} <= s && |{a, b}| == 2;
      SubsetCount({a, b}, s);
    }
  }

  lemma TwoOf<T>(s: set<T>) returns (a: T, b: T)
    requires |s| > 1
    ensures a in s && b in s && a != b
  {
    a :| a in s;
    assert |s - {a}| == |s| - 1;
    b :| b in s - {a};
  }

  lemma SpanMeaning(fees: set<int>)
    ensures match SpanOf(fees)
      case NoFee => fees == {}
      case OneFee(f) => fees == {f}
      case FeeRange(low, high) =>
        low < high && low in fees && high in fees && forall x :: x in fees ==> low <= x <= high
  {
    if |fees| == 1 {
      forall fee | fee in fees ensures fee == Least(fees) {
        SizeOne(fees, fee, Least(fees));
      }
    } else if fees != {} {
      var a, b := TwoOf(fees);
    }
  }

  /** The fees run from the least to the greatest one stated; one fee and no fee are told apart. */
  lemma FeeSummary(rules: Rules, articles: seq<Article>)
    ensures SpanTold(articles, Aggregated(rules, articles).fees)
  {
    hide Unique, Fees, StatesFee, SpanOf, AllPairs, TagsOf, ConflictsOf, MoveIns, RoomBaths, Loans, Mixed, OwnWarnings;
    var fees := Fees(Unique(articles));
    SpanMeaning(fees);
    forall fee ensures fee in fees <==> StatesFee(articles, fee) {
      FeesTold(articles, fee);
    }
  }

  /* ------------------------- options ------------------------- */

  /** Some distinct article has an option read under this name with this count, or with none. */
  ghost predicate Reads(rules: Rules, articles: seq<Article>, name: string, count: Option<nat>)
  {
    exists i: nat :: IsFirst(articles, i) && ListsOption(rules, articles[i].options, name, count)
  }

  ghost predicate ListsOption(rules: Rules, raws: seq<string>, name: string, count: Option<nat>)
  {
    exists raw :: raw in raws && rules.option(raw) == (name, count)
  }

  lemma {:induction false} PairsOfMember(rules: Rules, raws: seq<string>, name: string, count: Option<nat>)
    ensures (name, ReadingOf(count)) in PairsOf(rules, raws) <==> name != "" && ListsOption(rules, raws, name, count)
  {
    if raws != [] {
      var n := |raws| - 1;
      PairsOfMember(rules, raws[..n], name, count);
      assert raws == raws[..n] + [raws[n]];
    }
  }

  lemma {:induction false} AllPairsMember(rules: Rules, us: seq<Article>, name: string, count: Option<nat>)
    ensures (name, ReadingOf(count)) in AllPairs(rules, us) <==>
      name != "" && exists a :: a in us && ListsOption(rules, a.options, name, count)
  {
    hide ReadingOf, PairsOf, ListsOption;
    if us != [] {
      var n := |us| - 1;
      AllPairsMember(rules, us[..n], name, count);
      PairsOfMember(rules, us[n].options, name, count);
      assert us == us[..n] + [us[n]];
    }
  }

  lemma PairRead(rules: Rules, articles: seq<Article>, name: string, count: Option<nat>)
    ensures (name, ReadingOf(count)) in AllPairs(rules, Unique(articles)) <==>
      name != "" && Reads(rules, articles, name, count)
  {
    AllPairsMember(rules, Unique(articles), name, count);
    forall y ensures y in Unique(articles) <==> exists i: nat :: IsFirst(articles, i) && articles[i] == y {
      UniqueFirst(articles, y);
    }
    hide Unique, IsFirst, AllPairs, ListsOption, ReadingOf;
  }

  /** The tag shows the least and the greatest count read, one count only if every reading gives it, else none. */
  ghost predicate TagTold(rules: Rules, articles: seq<Article>, name: string, tag: Tag)
  {
    match tag
    case Plain =>
      && Reads(rules, articles, name, None)
      && forall m: nat, n: nat ::
        Reads(rules, articles, name, Some(m)) && Reads(rules, articles, name, Some(n)) ==> m == n
    case Counted(c) =>
      && !Reads(rules, articles, name, None) && c >= 0
      && forall n: nat :: Reads(rules, articles, name, Some(n)) <==> n == c
    case CountRange(low, high) =>
      && 0 <= low < high && Reads(rules, articles, name, Some(low)) && Reads(rules, articles, name, Some(high))
      && forall n: nat :: Reads(rules, articles, name, Some(n)) ==> low <= n <= high
  }

  lemma TagMeaning(counts: set<nat>, unspecified: bool)
    requires counts != {} || unspecified
    ensures match TagOf(counts, unspecified).0
      case Plain => unspecified && forall m, n :: m in counts && n in counts ==> m == n
      case Counted(c) => !unspecified && counts == {c}
      case CountRange(low, high) =>
        low < high && low in counts && high in counts && forall n :: n in counts ==> low <= n <= high
  {
    if |counts| <= 1 {
      forall m, n | m in counts && n in counts ensures m == n {
        SizeOne(counts, m, n);
      }
    } else {
      var a, b := TwoOf(counts);
    }
  }

  lemma CountsRead(rules: Rules, articles: seq<Article>, name: string)
    requires name != ""
    ensures var rs := Readings(AllPairs(rules, Unique(articles)), name);
      && (forall n: nat :: n in Numbers(rs) <==> Reads(rules, articles, name, Some(n)))
      && (Unspecified in rs <==> Reads(rules, articles, name, None))
      && (rs != {} <==> exists count :: Reads(rules, articles, name, count))
  {
    var pairs := AllPairs(rules, Unique(articles));
    var rs := Readings(pairs, name);
    forall count: Option<nat> ensures ReadingOf(count) in rs <==> Reads(rules, articles, name, count) {
      PairRead(rules, articles, name, count);
      hide Unique, AllPairs, Reads, ReadingOf;
      assert ReadingOf(count) in rs <==> (name, ReadingOf(count)) in pairs;
    }
    hide Unique, AllPairs, Reads, Readings;
    assert ReadingOf(None) == Unspecified;
    forall n: nat ensures n in Numbers(rs) <==> Reads(rules, articles, name, Some(n)) {
      assert ReadingOf(Some(n)) == Number(n);
    }
    if r :| r in rs {
      var count := if r.Unspecified? then None else Some(r.n);
      assert ReadingOf(count) == r;
    }
  }

  lemma NamesRead(pairs: set<(string, Reading)>, name: string)
    ensures name in Names(pairs) <==> Readings(pairs, name) != {}
  {
    if name in Names(pairs) {
      var p :| p in pairs && p.0 == name;
      assert p.1 in Readings(pairs, name);
    }
  }

  lemma {:induction false} NoBlankNames(rules: Rules, us: seq<Article>)
    ensures forall p :: p in AllPairs(rules, us) ==> p.0 != ""
  {
    if us != [] {
      NoBlankNames(rules, us[..|us| - 1]);
      BlankNot(rules, us[|us| - 1].options);
    }
  }

  lemma {:induction false} BlankNot(rules: Rules, raws: seq<string>)
    ensures forall p :: p in PairsOf(rules, raws) ==> p.0 != ""
  {
    if raws != [] {
      BlankNot(rules, raws[..|raws| - 1]);
    }
  }

  /** An option is shown exactly when it was read, with a tag that shows how. */
  lemma OptionSummary(rules: Rules, articles: seq<Article>, name: string)
    ensures var options := Aggregated(rules, articles).options;
      && (name in options <==> name != "" && exists count :: Reads(rules, articles, name, count))
      && (name in options ==> TagTold(rules, articles, name, options[name]))
  {
    var us := Unique(articles);
    var pairs := AllPairs(rules, us);
    var rs := Readings(pairs, name);
    hide *;
    TagShown(rules, articles, name);
    NoBlankNames(rules, us);
    NamesRead(pairs, name);
    if name != "" {
      CountsRead(rules, articles, name);
      if rs != {} {
        ReadAtAll(rs);
        TagMeaning(Numbers(rs), Unspecified in rs);
        TagFrom(rules, articles, name, Numbers(rs), Unspecified in rs);
      }
    } else {
      NoBlankReadings(pairs);
    }
  }

  lemma NoBlankReadings(pairs: set<(string, Reading)>)
    requires forall p :: p in pairs ==> p.0 != ""
    ensures Readings(pairs, "") == {}
  {
  }

  lemma TagShown(rules: Rules, articles: seq<Article>, name: string)
    ensures var pairs := AllPairs(rules, Unique(articles));
      var rs, options := Readings(pairs, name), Aggregated(rules, articles).options;
      && (name in options <==> name in Names(pairs))
      && (name in options ==> options[name] == TagOf(Numbers(rs), Unspecified in rs).0)
  {
    hide Unique, AllPairs, Readings, Numbers, TagOf, MoveIns, RoomBaths, Loans, Mixed, OwnWarnings, Fees, SpanOf;
  }

  lemma TagFrom(rules: Rules, articles: seq<Article>, name: string, counts: set<nat>, unspecified: bool)
    requires forall n: nat :: n in counts <==> Reads(rules, articles, name, Some(n))
    requires unspecified <==> Reads(rules, articles, name, None)
    requires match TagOf(counts, unspecified).0
      case Plain => unspecified && forall m, n :: m in counts && n in counts ==> m == n
      case Counted(c) => !unspecified && counts == {c}
      case CountRange(low, high) =>
        low < high && low in counts && high in counts && forall n :: n in counts ==> low <= n <= high
    ensures TagTold(rules, articles, name, TagOf(counts, unspecified).0)
  {
    hide Reads, TagOf;
  }

  lemma ReadAtAll(rs: set<Reading>)
    requires rs != {}
    ensures Numbers(rs) != {} || Unspecified in rs
  {
    var r :| r in rs;
    if r.Number? {
      assert r.n in Numbers(rs);
    }
  }

  /* ------------------------- warnings ------------------------- */

  /** Two distinct articles state different values. */
  ghost predicate TwoDiffer<T(!new)>(articles: seq<Article>, value: Article -> Option<T>)
  {
    exists i: nat, k: nat :: IsFirst(articles, i) && IsFirst(articles, k)
      && value(articles[i]).Some? && value(articles[k]).Some? && value(articles[i]) != value(articles[k])
  }

  /** Some distinct article states the value. */
  ghost predicate StatedByOne<T(!new)>(articles: seq<Article>, value: Article -> Option<T>, v: T)
  {
    exists i: nat :: IsFirst(articles, i) && value(articles[i]) == Some(v)
  }

  lemma MixedMeaning<T(!new)>(articles: seq<Article>, value: Article -> Option<T>, m: multiset<T>)
    requires forall v :: v in m <==> exists a :: a in Unique(articles) && value(a) == Some(v)
    ensures Mixed(m) <==> TwoDiffer(articles, value)
  {
    forall y ensures y in Unique(articles) <==> exists i: nat :: IsFirst(articles, i) && articles[i] == y {
      UniqueFirst(articles, y);
    }
    hide Unique, IsFirst;
    forall v ensures v in m <==> StatedByOne(articles, value, v) {
    }
    var s := set x | x in m;
    if Mixed(m) {
      var v, w := TwoOf(s);
      assert StatedByOne(articles, value, v) && StatedByOne(articles, value, w);
    }
    if TwoDiffer(articles, value) {
      var i: nat, k: nat :| IsFirst(articles, i) && IsFirst(articles, k)
        && value(articles[i]).Some? && value(articles[k]).Some? && value(articles[i]) != value(articles[k]);
      assert StatedByOne(articles, value, value(articles[i]).value)
        && StatedByOne(articles, value, value(articles[k]).value);
      if |s| <= 1 {
        SizeOne(s, value(articles[i]).value, value(articles[k]).value);
      }
    }
  }

  /** The rooms and bathrooms that the article states. */
  function RoomBathOf(a: Article): Option<(Option<int>, Option<int>)>
  {
    if a.rooms.None? && a.baths.None? then None else Some((a.rooms, a.baths))
  }

  lemma SubSome(us: seq<Article>, p: Article -> bool)
    ensures |Sub(us, p)| > 0 <==> exists a :: a in us && p(a)
  {
    if a :| a in us && p(a) {
      assert a in Sub(us, p);
    }
  }

  lemma FeesMixed(articles: seq<Article>)
    ensures |Fees(Unique(articles))| > 1 <==> TwoDiffer(articles, (a: Article) => a.fee)
  {
    var fees, m := Fees(Unique(articles)), multiset(Fees(Unique(articles)));
    hide Unique;
    assert forall v :: v in m <==> v in fees;
    MixedMeaning(articles, (a: Article) => a.fee, m);
    assert fees == set x | x in m;
  }

  lemma OwnRead(articles: seq<Article>, w: string)
    ensures w in OwnWarnings(Unique(articles)) <==>
      exists i: nat :: IsFirst(articles, i) && w in articles[i].warnings
  {
    forall y ensures y in Unique(articles) <==> exists i: nat :: IsFirst(articles, i) && articles[i] == y {
      UniqueFirst(articles, y);
    }
    hide Unique, IsFirst;
  }

  /** The warning is about an option that was read in two ways, no count being one of them. */
  ghost predicate OptionDiffers(rules: Rules, articles: seq<Article>, w: string)
  {
    exists name: string, m: Option<nat>, n: Option<nat> :: name != "" && w == "option_count_conflict:" + name && m != n
      && Reads(rules, articles, name, m) && Reads(rules, articles, name, n)
  }

  lemma OptionConflicts(rules: Rules, articles: seq<Article>, w: string)
    ensures var pairs := AllPairs(rules, Unique(articles));
      w in ConflictsOf(pairs, Names(pairs)) <==> OptionDiffers(rules, articles, w)
  {
    var pairs := AllPairs(rules, Unique(articles));
    NoBlankNames(rules, Unique(articles));
    hide AllPairs, Unique, Readings, Numbers, TagFor, Reads;
    forall name ensures name in Names(pairs) && TagFor(pairs, name).1 <==>
      name != "" && exists m, n :: m != n && Reads(rules, articles, name, m) && Reads(rules, articles, name, n)
    {
      TagConflicts(pairs, name);
      NamesRead(pairs, name);
      if name == "" {
        NoBlankReadings(pairs);
      } else {
        ManyReadings(rules, articles, name);
      }
    }
    if w in ConflictsOf(pairs, Names(pairs)) {
      var name :| name in Names(pairs) && TagFor(pairs, name).1 && Conflict(name) == w;
      var m, n :| m != n && Reads(rules, articles, name, m) && Reads(rules, articles, name, n);
    }
    if OptionDiffers(rules, articles, w) {
      var name, m, n :| name != "" && w == "option_count_conflict:" + name && m != n
        && Reads(rules, articles, name, m) && Reads(rules, articles, name, n);
      assert name in Names(pairs) && TagFor(pairs, name).1;
      assert Conflict(name) == w;
    }
  }

  lemma ManyReadings(rules: Rules, articles: seq<Article>, name: string)
    requires name != ""
    ensures var rs := Readings(AllPairs(rules, Unique(articles)), name);
      |rs| > 1 <==> exists m, n :: m != n && Reads(rules, articles, name, m) && Reads(rules, articles, name, n)
  {
    var pairs := AllPairs(rules, Unique(articles));
    var rs := Readings(pairs, name);
    forall count: Option<nat> ensures ReadingOf(count) in rs <==> Reads(rules, articles, name, count) {
      PairRead(rules, articles, name, count);
      hide Unique, AllPairs, Reads, ReadingOf;
      assert ReadingOf(count) in rs <==> (name, ReadingOf(count)) in pairs;
    }
    hide Unique, AllPairs, Reads, Readings;
    if |rs| > 1 {
      var a, b := TwoOf(rs);
      var m := if a.Unspecified? then None else Some(a.n);
      var n := if b.Unspecified? then None else Some(b.n);
      assert ReadingOf(m) == a && ReadingOf(n) == b;
    }
    if m, n :| m != n && Reads(rules, articles, name, m) && Reads(rules, articles, name, n) {
      if |rs| <= 1 {
        SizeOne(rs, ReadingOf(m), ReadingOf(n));
      }
    }
  }

  /** A warning is given exactly when an article brings it, or the distinct articles differ in what it is about. */
  lemma WarningsExact(rules: Rules, articles: seq<Article>, w: string)
    ensures w in Aggregated(rules, articles).warnings <==>
      || (exists i: nat :: IsFirst(articles, i) && w in articles[i].warnings)
      || OptionDiffers(rules, articles, w)
      || (w == "move_in_conflict" && TwoDiffer(articles, (a: Article) => MoveInOf(rules, a)))
      || (w == "management_fee_conflict" && TwoDiffer(articles, (a: Article) => a.fee))
      || (w == "room_bath_conflict" && TwoDiffer(articles, RoomBathOf))
      || (w == "loan_conflict" && TwoDiffer(articles, (a: Article) => Some(rules.loan(a.loan))))
  {
    var us := Unique(articles);
    OwnRead(articles, w);
    OptionConflicts(rules, articles, w);
    MoveInsMixed(rules, articles);
    FeesMixed(articles);
    RoomBathsMixed(articles);
    LoansMixed(rules, articles);
    hide Unique, AllPairs, TagsOf, ConflictsOf, MoveIns, RoomBaths, Loans, SpanOf, Mixed, Fees, OwnWarnings, Names;
    hide IsFirst, TwoDiffer, OptionDiffers;
  }

  lemma MoveInsMixed(rules: Rules, articles: seq<Article>)
    ensures Mixed(MoveIns(rules, Unique(articles))) <==> TwoDiffer(articles, (a: Article) => MoveInOf(rules, a))
  {
    UniqueMeaning(articles);
    var us := Unique(articles);
    hide Unique, MoveIns, MoveInOf, Mixed, TwoDiffer, StrictlyAscending, HasId, Sub;
    forall v ensures v in MoveIns(rules, us) <==> exists a :: a in us && MoveInOf(rules, a) == Some(v) {
      MoveInsCounted(rules, us, v);
      SubSome(us, (a: Article) => MoveInOf(rules, a) == Some(v));
    }
    MixedMeaning(articles, (a: Article) => MoveInOf(rules, a), MoveIns(rules, us));
  }

  lemma RoomBathsMixed(articles: seq<Article>)
    ensures Mixed(RoomBaths(Unique(articles))) <==> TwoDiffer(articles, RoomBathOf)
  {
    UniqueMeaning(articles);
    var us := Unique(articles);
    hide Unique, RoomBaths, Mixed, TwoDiffer, StrictlyAscending, HasId, Sub;
    forall v ensures v in RoomBaths(us) <==> exists a :: a in us && RoomBathOf(a) == Some(v) {
      RoomBathsCounted(us, v.0, v.1);
      SubSome(us, (a: Article) => a.rooms == v.0 && a.baths == v.1);
      assert RoomBaths(us)[v] == RoomBaths(us)[(v.0, v.1)];
    }
    MixedMeaning(articles, RoomBathOf, RoomBaths(us));
  }

  lemma LoansMixed(rules: Rules, articles: seq<Article>)
    ensures Mixed(Loans(rules, Unique(articles))) <==> TwoDiffer(articles, (a: Article) => Some(rules.loan(a.loan)))
  {
    UniqueMeaning(articles);
    var us := Unique(articles);
    hide Unique, Loans, Mixed, TwoDiffer, StrictlyAscending, HasId, Sub;
    forall v ensures v in Loans(rules, us) <==> exists a :: a in us && Some(rules.loan(a.loan)) == Some(v) {
      LoansCounted(rules, us, v);
      SubSome(us, (a: Article) => rules.loan(a.loan) == v);
    }
    MixedMeaning(articles, (a: Article) => Some(rules.loan(a.loan)), Loans(rules, us));
  }
}
