/** What a comparison reports, said of the compared attributes themselves. */
module Attributes {
  import opened Support
  import opened Text
  import opened Comparator

  /** The texts that are not blank, each as its words. */
  function Entries(texts: set<string>): set<seq<string>>
  {
    set x | x in texts && Words(x) != [] :: Words(x)
  }

  /* ------------------------- attributes ------------------------- */

  /** The attribute of a field differs and is compared: detail fields only when both runs collected details. */
  ghost predicate AttributeDiffers(b: Comparable, a: Comparable, details: bool, f: Field)
  {
    match f
    case Price => b.price != a.price
    case Deposit => b.deposit != a.deposit
    case MonthlyRent => b.monthlyRent != a.monthlyRent
    case Building => WordsOf(b.building) != WordsOf(a.building)
    case Floor => WordsOf(b.floor) != WordsOf(a.floor)
    case Direction => WordsOf(b.direction) != WordsOf(a.direction)
    case SupplyArea => b.supplyArea != a.supplyArea
    case ExclusiveArea => b.exclusiveArea != a.exclusiveArea
    case ManagementFee => details && Words(b.managementFee) != Words(a.managementFee)
    case MoveInDate => details && Words(b.moveInDate) != Words(a.moveInDate)
    case RoomBathroom => details && Words(b.roomBathroom) != Words(a.roomBathroom)
    case Loan => details && Words(b.loan) != Words(a.loan)
    case OptionTags => details && Entries(set x | x in b.optionTags) != Entries(set x | x in a.optionTags)
    case RegistrationCount => b.registrationCount != a.registrationCount
    case ArticleIds => Entries(b.articleIds) != Entries(a.articleIds)
  }

  ghost predicate IsNumber(j: Json, n: Option<int>)
  {
    match n
    case None => j == Null
    case Some(k) => j == Num(k)
  }

  /** The words with single spaces between them, nothing if there are none. */
  ghost predicate IsText(j: Json, words: seq<string>)
  {
    if words == [] then j == Null else j.Str? && SingleSpaced(j.s) && Words(j.s) == words
  }

  ghost predicate AreTexts(j: Json, entries: set<seq<string>>)
  {
    && j.Strs?
    && (forall x :: x in j.items ==> SingleSpaced(x) && Words(x) in entries)
    && (forall e :: e in entries ==> exists x :: x in j.items && Words(x) == e)
  }

  /** The value reported for a field is that of its attribute. */
  ghost predicate Reported(j: Json, c: Comparable, f: Field)
  {
    match f
    case Price => IsNumber(j, c.price)
    case Deposit => IsNumber(j, c.deposit)
    case MonthlyRent => IsNumber(j, c.monthlyRent)
    case Building => IsText(j, WordsOf(c.building))
    case Floor => IsText(j, WordsOf(c.floor))
    case Direction => IsText(j, WordsOf(c.direction))
    case SupplyArea => IsNumber(j, c.supplyArea)
    case ExclusiveArea => IsNumber(j, c.exclusiveArea)
    case ManagementFee => IsText(j, Words(c.managementFee))
    case MoveInDate => IsText(j, Words(c.moveInDate))
    case RoomBathroom => IsText(j, Words(c.roomBathroom))
    case Loan => IsText(j, Words(c.loan))
    case OptionTags => AreTexts(j, Entries(set x | x in c.optionTags))
    case RegistrationCount => j == Num(c.registrationCount)
    case ArticleIds => AreTexts(j, Entries(c.articleIds))
  }

  function Cleaned(texts: set<string>): set<string>
  {
    set x | x in texts && Clean(x) != "" :: Clean(x)
  }

  lemma CleanedMeaning(texts: set<string>)
    ensures AreTexts(Strs(Cleaned(texts)), Entries(texts))
  {
    hide Words, Clean, SingleSpaced;
    forall x | x in texts ensures SingleSpaced(Clean(x)) && Words(Clean(x)) == Words(x)
      ensures Clean(x) == "" <==> Words(x) == []
    {
      CleanSpaced(x);
    }
    forall e | e in Entries(texts) ensures exists y :: y in Cleaned(texts) && Words(y) == e {
      var x :| x in texts && Words(x) != [] && Words(x) == e;
      assert Clean(x) in Cleaned(texts);
    }
  }

  lemma CleanedSame(s: set<string>, t: set<string>)
    ensures Cleaned(s) == Cleaned(t) <==> Entries(s) == Entries(t)
  {
    if Entries(s) == Entries(t) {
      CleanedWithin(s, t);
      CleanedWithin(t, s);
    }
    CleanedMeaning(s);
    CleanedMeaning(t);
    hide Entries, Cleaned, Words, SingleSpaced;
    if Cleaned(s) == Cleaned(t) {
      forall e ensures e in Entries(s) <==> e in Entries(t) {
        if e in Entries(s) {
          var x :| x in Cleaned(s) && Words(x) == e;
        }
        if e in Entries(t) {
          var x :| x in Cleaned(t) && Words(x) == e;
        }
      }
    }
  }

  lemma CleanedWithin(s: set<string>, t: set<string>)
    requires Entries(s) <= Entries(t)
    ensures Cleaned(s) <= Cleaned(t)
  {
    hide Words, Clean;
    forall y | y in Cleaned(s) ensures y in Cleaned(t) {
      var x :| x in s && Clean(x) != "" && Clean(x) == y;
      CleanSpaced(x);
      assert Words(x) in Entries(s);
      var z :| z in t && Words(z) != [] && Words(z) == Words(x);
      CleanSame(x, z);
    }
  }

  /** The stored value of a field is that of its attribute. */
  lemma FieldReported(c: Comparable, f: Field)
    ensures Reported(JsonField(c, f), c, f)
  {
    hide Words, Clean, SingleSpaced;
    match f
    case Building => TextReported(c.building);
    case Floor => TextReported(c.floor);
    case Direction => TextReported(c.direction);
    case ManagementFee => TextReported(Some(c.managementFee));
    case MoveInDate => TextReported(Some(c.moveInDate));
    case RoomBathroom => TextReported(Some(c.roomBathroom));
    case Loan => TextReported(Some(c.loan));
    case OptionTags =>
      var tags := set x | x in c.optionTags;
      CleanedMeaning(tags);
      assert JsonField(c, f) == Strs(Cleaned(tags));
    case ArticleIds =>
      CleanedMeaning(c.articleIds);
      assert JsonField(c, f) == Strs(Cleaned(c.articleIds));
    case _ =>
  }

  lemma TextReported(text: Option<string>)
    ensures IsText(JsonValue(Text(text)), WordsOf(text))
  {
    if text.Some? {
      CleanSpaced(text.value);
    }
    hide Words, Clean, SingleSpaced;
  }

  lemma TextSame(s: Option<string>, t: Option<string>)
    ensures JsonValue(Text(s)) == JsonValue(Text(t)) <==> WordsOf(s) == WordsOf(t)
  {
    if s.Some? {
      CleanSpaced(s.value);
    }
    if t.Some? {
      CleanSpaced(t.value);
    }
    if s.Some? && t.Some? {
      CleanSame(s.value, t.value);
    }
    hide Words, Clean, SingleSpaced;
  }

  /** A field's stored values differ exactly when its attributes do. */
  lemma FieldDiffers(b: Comparable, a: Comparable, details: bool, f: Field)
    ensures Differs(b, a, details, f) <==> AttributeDiffers(b, a, details, f)
  {
    hide Words, Clean;
    match f
    case Building => TextSame(b.building, a.building);
    case Floor => TextSame(b.floor, a.floor);
    case Direction => TextSame(b.direction, a.direction);
    case ManagementFee => TextSame(Some(b.managementFee), Some(a.managementFee));
    case MoveInDate => TextSame(Some(b.moveInDate), Some(a.moveInDate));
    case RoomBathroom => TextSame(Some(b.roomBathroom), Some(a.roomBathroom));
    case Loan => TextSame(Some(b.loan), Some(a.loan));
    case OptionTags =>
      var s, t := set x | x in b.optionTags, set x | x in a.optionTags;
      CleanedSame(s, t);
      assert JsonField(b, f) == Strs(Cleaned(s)) && JsonField(a, f) == Strs(Cleaned(t));
    case ArticleIds =>
      CleanedSame(b.articleIds, a.articleIds);
      assert JsonField(b, f) == Strs(Cleaned(b.articleIds)) && JsonField(a, f) == Strs(Cleaned(a.articleIds));
    case _ =>
  }

  /** The changed fields are exactly those whose attributes differ, each with its attribute's value before and after. */
  lemma DiffExact(b: Comparable, a: Comparable, details: bool, f: Field)
    ensures var c := Diff(b, a, details);
      && (f in c.changed <==> AttributeDiffers(b, a, details, f))
      && (f in c.before <==> f in c.changed) && (f in c.after <==> f in c.changed)
      && (f in c.changed ==> Reported(c.before[f], b, f) && Reported(c.after[f], a, f))
  {
    FieldsComplete(f);
    DifferingMembers(b, a, details, FIELDS, f);
    FieldDiffers(b, a, details, f);
    FieldReported(b, f);
    FieldReported(a, f);
    hide JsonField, AttributeDiffers, Reported;
  }
}
