/** Matching an observed listing to a permanent listing group. */
module ListingIdentity {
  import opened Support
  import opened Text

  /** Text fields are taken after Unicode compatibility normalisation; areas are whole hundredths. */
  datatype Identity = Identity(
    complexId: string,
    tradeType: string,
    building: Option<string>,
    exclusiveArea: Option<int>,
    floor: Option<string>,
    direction: Option<string>,
    price: Option<int>,
    articleIds: set<string>)

  datatype Candidate = Candidate(group: nat, key: nat, input: Identity)

  /** What is hashed: six descriptive parts, and for the identity key also the price and the articles. */
  datatype Parts =
    | Auxiliary(complexId: Option<string>, tradeType: Option<string>, building: Option<string>,
                exclusiveArea: Option<int>, floor: Option<string>, direction: Option<string>)
    | Full(auxiliary: Parts, price: Option<int>, articleIds: set<string>)

  /** The hash. Hex digests of one length sort like the numbers they denote; nothing else is used of it. */
  type Digest = Parts -> nat

  function NormalizeText(v: Option<string>): Option<string>
  {
    match v
    case None => None
    case Some(s) => if Clean(s) == "" then None else Some(Clean(s))
  }

  function AuxiliaryParts(v: Identity): Parts
  {
    Auxiliary(NormalizeText(Some(v.complexId)), NormalizeText(Some(v.tradeType)), NormalizeText(v.building),
              v.exclusiveArea, NormalizeText(v.floor), NormalizeText(v.direction))
  }

  function IdentityKey(digest: Digest, v: Identity): nat
  {
    digest(Full(AuxiliaryParts(v), v.price, v.articleIds))
  }

  function AuxiliaryKey(digest: Digest, v: Identity): nat
  {
    digest(AuxiliaryParts(v))
  }

  function Overlap(incoming: Identity, c: Candidate): nat
  {
    |incoming.articleIds * c.input.articleIds|
  }

  /** `a` sorts strictly before `b` under the key (-overlap, identity key). */
  predicate Better(incoming: Identity, a: Candidate, b: Candidate)
  {
    Overlap(incoming, a) > Overlap(incoming, b) ||
    (Overlap(incoming, a) == Overlap(incoming, b) && a.key < b.key)
  }

  /** Head of the stably sorted list of overlapping candidates. */
  function BestOverlap(incoming: Identity, cs: seq<Candidate>): Option<Candidate>
  {
    if cs == [] then None
    else
      var rest := BestOverlap(incoming, cs[1..]);
      if Overlap(incoming, cs[0]) == 0 then rest
      else if rest.Some? && Better(incoming, rest.value, cs[0]) then rest
      else Some(cs[0])
  }

  function FirstWithKey(key: nat, cs: seq<Candidate>): Option<Candidate>
  {
    if cs == [] then None
    else if cs[0].key == key then Some(cs[0])
    else FirstWithKey(key, cs[1..])
  }

  function AuxiliaryMatches(digest: Digest, incoming: Identity, cs: seq<Candidate>): seq<Candidate>
  {
    if cs == [] then []
    else
      (if AuxiliaryKey(digest, cs[0].input) == AuxiliaryKey(digest, incoming) then [cs[0]] else []) +
      AuxiliaryMatches(digest, incoming, cs[1..])
  }

  /** `choose_existing_listing`. */
  function Choose(digest: Digest, incoming: Identity, cs: seq<Candidate>): Option<Candidate>
  {
    var best := BestOverlap(incoming, cs);
    if best.Some? then best
    else
      var exact := FirstWithKey(IdentityKey(digest, incoming), cs);
      if exact.Some? then exact
      else
        var auxiliary := AuxiliaryMatches(digest, incoming, cs);
        if |auxiliary| == 1 then Some(auxiliary[0]) else None
  }

  /** An overlapping candidate is chosen iff one exists, and none of the others sorts before it. */
  lemma {:induction false} BestOverlapMeaning(incoming: Identity, cs: seq<Candidate>)
    ensures var best := BestOverlap(incoming, cs);
      && (best.None? <==> forall c :: c in cs ==> Overlap(incoming, c) == 0)
      && (best.Some? ==> best.value in cs && Overlap(incoming, best.value) > 0
                         && forall c :: c in cs ==> !Better(incoming, c, best.value))
  {
    if cs != [] {
      BestOverlapMeaning(incoming, cs[1..]);
      assert cs == [cs[0]] + cs[1..];
    }
  }

  lemma {:induction false} FirstWithKeyMeaning(key: nat, cs: seq<Candidate>)
    ensures var found := FirstWithKey(key, cs);
      && (found.None? <==> forall c :: c in cs ==> c.key != key)
      && (found.Some? ==> found.value in cs && found.value.key == key)
  {
    if cs != [] {
      FirstWithKeyMeaning(key, cs[1..]);
      assert cs == [cs[0]] + cs[1..];
    }
  }

  lemma {:induction false} AuxiliaryMatchesMeaning(digest: Digest, incoming: Identity, cs: seq<Candidate>, c: Candidate)
    ensures multiset(AuxiliaryMatches(digest, incoming, cs))[c]
         == if AuxiliaryKey(digest, c.input) == AuxiliaryKey(digest, incoming) then multiset(cs)[c] else 0
  {
    if cs != [] {
      AuxiliaryMatchesMeaning(digest, incoming, cs[1..], c);
      assert cs == [cs[0]] + cs[1..];
    }
  }

  ghost predicate DistinctKeys(cs: seq<Candidate>)
  {
    forall i, j :: 0 <= i < j < |cs| ==> cs[i].key != cs[j].key
  }

  /** The three rules on overlaps and keys. */
  lemma ChooseByKeys(digest: Digest, incoming: Identity, cs: seq<Candidate>)
    ensures var r := Choose(digest, incoming, cs);
      && (r.Some? ==> r.value in cs)
      && ((exists c :: c in cs && Overlap(incoming, c) > 0) ==>
            r.Some? && Overlap(incoming, r.value) > 0 && forall c :: c in cs ==> !Better(incoming, c, r.value))
      && ((forall c :: c in cs ==> Overlap(incoming, c) == 0) ==>
            if exists c :: c in cs && c.key == IdentityKey(digest, incoming)
            then r.Some? && r.value.key == IdentityKey(digest, incoming)
            else (r.Some? <==> |AuxiliaryMatches(digest, incoming, cs)| == 1)
                 && (r.Some? ==> AuxiliaryMatches(digest, incoming, cs) == [r.value]
                                 && AuxiliaryKey(digest, r.value.input) == AuxiliaryKey(digest, incoming)))
  {
    BestOverlapMeaning(incoming, cs);
    FirstWithKeyMeaning(IdentityKey(digest, incoming), cs);
    var auxiliary := AuxiliaryMatches(digest, incoming, cs);
    if |auxiliary| == 1 {
      AuxiliaryMatchesMeaning(digest, incoming, cs, auxiliary[0]);
      assert auxiliary[0] in multiset(auxiliary);
      assert auxiliary[0] in multiset(cs);
    }
  }

  /* ------------------------- the rules on attributes ------------------------- */

  ghost predicate Injective(digest: Digest)
  {
    forall p, q :: digest(p) == digest(q) ==> p == q
  }

  /** Complex, trade type, building, floor and direction have the same words, and the areas are equal. */
  ghost predicate SameDescription(v: Identity, w: Identity)
  {
    && Words(v.complexId) == Words(w.complexId) && Words(v.tradeType) == Words(w.tradeType)
    && WordsOf(v.building) == WordsOf(w.building) && v.exclusiveArea == w.exclusiveArea
    && WordsOf(v.floor) == WordsOf(w.floor) && WordsOf(v.direction) == WordsOf(w.direction)
  }

  /** The price and the articles are the same as well. */
  ghost predicate SameOffer(v: Identity, w: Identity)
  {
    SameDescription(v, w) && v.price == w.price && v.articleIds == w.articleIds
  }

  lemma NormalizedSame(s: Option<string>, t: Option<string>)
    ensures NormalizeText(s) == NormalizeText(t) <==> WordsOf(s) == WordsOf(t)
  {
    if s.Some? {
      CleanSpaced(s.value);
    }
    if t.Some? {
      CleanSpaced(t.value);
    }
    if s.Some? && t.Some? {
      CleanSame(s.value, t.value);
    }
    hide Words, Clean;
  }

  lemma PartsSame(v: Identity, w: Identity)
    ensures AuxiliaryParts(v) == AuxiliaryParts(w) <==> SameDescription(v, w)
  {
    NormalizedSame(Some(v.complexId), Some(w.complexId));
    NormalizedSame(Some(v.tradeType), Some(w.tradeType));
    NormalizedSame(v.building, w.building);
    NormalizedSame(v.floor, w.floor);
    NormalizedSame(v.direction, w.direction);
    hide NormalizeText, Words;
  }

  /** What the two keys tell apart: descriptions, and descriptions with price and articles. */
  lemma KeysMeaning(digest: Digest, v: Identity, w: Identity)
    requires Injective(digest)
    ensures AuxiliaryKey(digest, v) == AuxiliaryKey(digest, w) <==> SameDescription(v, w)
    ensures IdentityKey(digest, v) == IdentityKey(digest, w) <==> SameOffer(v, w)
  {
    PartsSame(v, w);
    hide AuxiliaryParts, SameDescription;
  }

  /** What a candidate's key was built from, if it was built at all. */
  ghost predicate Keyed(digest: Digest, c: Candidate, origin: Option<Identity>)
  {
    match origin
    case Some(v) => c.key == IdentityKey(digest, v)
    case None => forall v :: c.key != IdentityKey(digest, v)
  }

  function Shared(v: Identity, c: Candidate): set<ArticleId>
  {
    v.articleIds * c.input.articleIds
  }

  ghost predicate Founded(origin: Option<Identity>, v: Identity)
  {
    origin.Some? && SameOffer(origin.value, v)
  }

  /** Exactly the `i`-th candidate has the description. */
  ghost predicate OnlyLike(v: Identity, cs: seq<Candidate>, i: nat)
  {
    && i < |cs| && SameDescription(cs[i].input, v)
    && forall k :: 0 <= k < |cs| && k != i ==> !SameDescription(cs[k].input, v)
  }

  lemma {:induction false} OnlyMatch(digest: Digest, v: Identity, cs: seq<Candidate>)
    requires Injective(digest)
    ensures AuxiliaryMatches(digest, v, cs) == [] <==> forall k :: 0 <= k < |cs| ==> !SameDescription(cs[k].input, v)
    ensures |AuxiliaryMatches(digest, v, cs)| == 1 <==> exists i: nat :: OnlyLike(v, cs, i)
    ensures forall i: nat :: OnlyLike(v, cs, i) ==> AuxiliaryMatches(digest, v, cs) == [cs[i]]
  {
    hide SameDescription;
    if cs != [] {
      OnlyMatch(digest, v, cs[1..]);
      KeysMeaning(digest, cs[0].input, v);
      var rest := AuxiliaryMatches(digest, v, cs[1..]);
      assert forall k :: 0 < k < |cs| ==> cs[1..][k - 1] == cs[k];
      if SameDescription(cs[0].input, v) {
        assert AuxiliaryMatches(digest, v, cs) == [cs[0]] + rest;
        if rest == [] {
          assert OnlyLike(v, cs, 0);
        }
      } else {
        assert AuxiliaryMatches(digest, v, cs) == rest;
        forall i: nat ensures OnlyLike(v, cs, i) <==> i > 0 && OnlyLike(v, cs[1..], i - 1) {
          LikeTail(v, cs, i);
        }
        if i: nat :| OnlyLike(v, cs[1..], i) {
          assert OnlyLike(v, cs, i + 1);
        }
      }
    }
  }

  lemma LikeTail(v: Identity, cs: seq<Candidate>, i: nat)
    requires cs != [] && !SameDescription(cs[0].input, v)
    ensures OnlyLike(v, cs, i) <==> i > 0 && OnlyLike(v, cs[1..], i - 1)
  {
    hide SameDescription;
    if i > 0 && OnlyLike(v, cs[1..], i - 1) {
      forall k | 0 <= k < |cs| && k != i ensures !SameDescription(cs[k].input, v) {
        assert k > 0 ==> cs[1..][k - 1] == cs[k];
      }
    }
    if OnlyLike(v, cs, i) {
      forall k | 0 <= k < |cs[1..]| && k != i - 1 ensures !SameDescription(cs[1..][k].input, v) {
        assert cs[1..][k] == cs[k + 1];
      }
    }
  }

  ghost predicate MostShared(incoming: Identity, cs: seq<Candidate>, r: Option<Candidate>)
  {
    && r.Some? && Shared(incoming, r.value) != {}
    && forall c :: c in cs ==>
         || |Shared(incoming, c)| < |Shared(incoming, r.value)|
         || (|Shared(incoming, c)| == |Shared(incoming, r.value)| && r.value.key <= c.key)
  }

  /** The three rules in order: most shared articles, with the least key on ties; else a candidate founded by the same
      offer; else the only candidate with the same description; else none. */
  ghost predicate FollowsRules(incoming: Identity, cs: seq<Candidate>, origin: Candidate -> Option<Identity>,
                               r: Option<Candidate>)
  {
    && (r.Some? ==> r.value in cs)
    && ((exists c :: c in cs && Shared(incoming, c) != {}) ==> MostShared(incoming, cs, r))
    && ((forall c :: c in cs ==> Shared(incoming, c) == {}) ==>
          if exists c :: c in cs && Founded(origin(c), incoming)
          then r.Some? && Founded(origin(r.value), incoming)
          else && (r.Some? <==> exists i: nat :: OnlyLike(incoming, cs, i))
               && (forall i: nat :: OnlyLike(incoming, cs, i) ==> r == Some(cs[i])))
  }

  lemma ChooseMeaning(digest: Digest, incoming: Identity, cs: seq<Candidate>, origin: Candidate -> Option<Identity>)
    requires Injective(digest) && forall c :: c in cs ==> Keyed(digest, c, origin(c))
    ensures FollowsRules(incoming, cs, origin, Choose(digest, incoming, cs))
  {
    var r := Choose(digest, incoming, cs);
    ChooseByKeys(digest, incoming, cs);
    OverlapShared(incoming, cs);
    if c :| c in cs && Shared(incoming, c) != {} {
      MostOverlap(incoming, cs, r);
    } else {
      forall c | c in cs ensures c.key == IdentityKey(digest, incoming) <==> Founded(origin(c), incoming) {
        FoundedKey(digest, incoming, c, origin(c));
      }
      hide Choose, AuxiliaryMatches, OnlyLike, Founded, IdentityKey, AuxiliaryKey, Shared, Overlap, Better, Keyed;
      OnlyMatch(digest, incoming, cs);
    }
  }

  lemma FoundedKey(digest: Digest, incoming: Identity, c: Candidate, origin: Option<Identity>)
    requires Injective(digest) && Keyed(digest, c, origin)
    ensures c.key == IdentityKey(digest, incoming) <==> Founded(origin, incoming)
  {
    hide IdentityKey, SameOffer;
    if origin.Some? {
      KeysMeaning(digest, origin.value, incoming);
    }
  }

  lemma OverlapShared(incoming: Identity, cs: seq<Candidate>)
    ensures forall c :: c in cs ==> Overlap(incoming, c) == |Shared(incoming, c)|
    ensures forall c :: c in cs ==> (Overlap(incoming, c) > 0 <==> Shared(incoming, c) != {})
  {
  }

  lemma MostOverlap(incoming: Identity, cs: seq<Candidate>, r: Option<Candidate>)
    requires r.Some? && r.value in cs && Overlap(incoming, r.value) > 0
    requires forall c :: c in cs ==> !Better(incoming, c, r.value)
    ensures MostShared(incoming, cs, r)
  {
    OverlapShared(incoming, cs);
    hide Overlap, Shared;
  }

  lemma SameKeySame(cs: seq<Candidate>, a: Candidate, b: Candidate)
    requires DistinctKeys(cs) && a in cs && b in cs && a.key == b.key
    ensures a == b
  {
  }

  ghost predicate SameMembers(cs: seq<Candidate>, ds: seq<Candidate>)
  {
    forall c :: c in cs <==> c in ds
  }

  lemma BestOverlapOrder(incoming: Identity, cs: seq<Candidate>, ds: seq<Candidate>)
    requires SameMembers(cs, ds) && DistinctKeys(cs)
    ensures BestOverlap(incoming, cs) == BestOverlap(incoming, ds)
  {
    BestOverlapMeaning(incoming, cs);
    BestOverlapMeaning(incoming, ds);
    var a, b := BestOverlap(incoming, cs), BestOverlap(incoming, ds);
    if a.Some? {
      assert b.Some?;
      assert !Better(incoming, a.value, b.value) && !Better(incoming, b.value, a.value);
      SameKeySame(cs, a.value, b.value);
    }
  }

  lemma FirstWithKeyOrder(key: nat, cs: seq<Candidate>, ds: seq<Candidate>)
    requires SameMembers(cs, ds) && DistinctKeys(cs)
    ensures FirstWithKey(key, cs) == FirstWithKey(key, ds)
  {
    FirstWithKeyMeaning(key, cs);
    FirstWithKeyMeaning(key, ds);
    if FirstWithKey(key, cs).Some? {
      SameKeySame(cs, FirstWithKey(key, cs).value, FirstWithKey(key, ds).value);
    }
  }

  lemma AuxiliaryOrder(digest: Digest, incoming: Identity, cs: seq<Candidate>, ds: seq<Candidate>)
    requires multiset(cs) == multiset(ds)
    ensures var a, b := AuxiliaryMatches(digest, incoming, cs), AuxiliaryMatches(digest, incoming, ds);
      |a| == |b| && (|a| == 1 ==> a[0] == b[0])
  {
    var a, b := AuxiliaryMatches(digest, incoming, cs), AuxiliaryMatches(digest, incoming, ds);
    forall c ensures multiset(a)[c] == multiset(b)[c] {
      AuxiliaryMatchesMeaning(digest, incoming, cs, c);
      AuxiliaryMatchesMeaning(digest, incoming, ds, c);
    }
    assert multiset(a) == multiset(b);
    assert |a| == |multiset(a)| == |multiset(b)| == |b|;
    if |a| == 1 {
      assert a == [a[0]] && b == [b[0]];
      assert b[0] in multiset(a);
    }
  }

  /** Candidates with distinct keys may come in any order. */
  lemma ChooseOrderIrrelevant(digest: Digest, incoming: Identity, cs: seq<Candidate>, ds: seq<Candidate>)
    requires multiset(cs) == multiset(ds)
    requires DistinctKeys(cs)
    ensures Choose(digest, incoming, cs) == Choose(digest, incoming, ds)
  {
    forall c ensures c in cs <==> c in ds {
      assert c in cs <==> c in multiset(cs);
      assert c in ds <==> c in multiset(ds);
    }
    BestOverlapOrder(incoming, cs, ds);
    FirstWithKeyOrder(IdentityKey(digest, incoming), cs, ds);
    AuxiliaryOrder(digest, incoming, cs, ds);
  }
}
