/** Field-by-field comparison of two observations of a listing, and the visibility machine. */
module Comparator {
  import opened Support
  import opened Text

  /** The compared attributes, in the order of the comparison table. */
  datatype Field =
    | Price | Deposit | MonthlyRent | Building | Floor | Direction
    | SupplyArea | ExclusiveArea | ManagementFee | MoveInDate | RoomBathroom | Loan
    | OptionTags | RegistrationCount | ArticleIds

  const FIELDS: seq<Field> := [
    Price, Deposit, MonthlyRent, Building, Floor, Direction, SupplyArea, ExclusiveArea,
    ManagementFee, MoveInDate, RoomBathroom, Loan, OptionTags, RegistrationCount, ArticleIds
  ]

  const DETAIL_FIELDS: set<Field> := {ManagementFee, MoveInDate, RoomBathroom, Loan, OptionTags}

  /** Areas are whole hundredths of a square metre; a sorted tuple of tags is its multiset. */
  datatype Comparable = Comparable(
    price: Option<int>,
    deposit: Option<int>,
    monthlyRent: Option<int>,
    building: Option<string>,
    floor: Option<string>,
    direction: Option<string>,
    supplyArea: Option<int>,
    exclusiveArea: Option<int>,
    managementFee: string,
    moveInDate: string,
    roomBathroom: string,
    loan: string,
    optionTags: multiset<string>,
    registrationCount: int,
    articleIds: set<string>)

  datatype Value =
    | Number(n: Option<int>)
    | Text(s: Option<string>)
    | Tags(bag: multiset<string>)
    | Names(names: set<string>)

  /** A normalised JSON value; a sorted list of distinct strings is its set. */
  datatype Json = Null | Num(n: int) | Str(s: string) | Strs(items: set<string>)

  type Facts = map<Field, Json>

  /** `getattr(listing, attribute)`. */
  function Get(c: Comparable, f: Field): Value
  {
    match f
    case Price => Number(c.price)
    case Deposit => Number(c.deposit)
    case MonthlyRent => Number(c.monthlyRent)
    case Building => Text(c.building)
    case Floor => Text(c.floor)
    case Direction => Text(c.direction)
    case SupplyArea => Number(c.supplyArea)
    case ExclusiveArea => Number(c.exclusiveArea)
    case ManagementFee => Text(Some(c.managementFee))
    case MoveInDate => Text(Some(c.moveInDate))
    case RoomBathroom => Text(Some(c.roomBathroom))
    case Loan => Text(Some(c.loan))
    case OptionTags => Tags(c.optionTags)
    case RegistrationCount => Number(Some(c.registrationCount))
    case ArticleIds => Names(c.articleIds)
  }

  /** `_json_value`. */
  function JsonValue(v: Value): Json
  {
    match v
    case Number(None) => Null
    case Number(Some(n)) => Num(n)
    case Text(None) => Null
    case Text(Some(s)) => if Clean(s) == "" then Null else Str(Clean(s))
    case Tags(bag) => Strs(set x | x in bag && Clean(x) != "" :: Clean(x))
    case Names(names) => Strs(set x | x in names && Clean(x) != "" :: Clean(x))
  }

  function JsonField(c: Comparable, f: Field): Json
  {
    JsonValue(Get(c, f))
  }

  /** The normalised view of an observation: every field with its JSON value. */
  function Normal(c: Comparable): Facts
  {
    map f: Field | true :: JsonField(c, f)
  }

  lemma FieldsComplete(f: Field)
    ensures f in FIELDS
  {
    match f
    case Price => assert FIELDS[0] == f;
    case Deposit => assert FIELDS[1] == f;
    case MonthlyRent => assert FIELDS[2] == f;
    case Building => assert FIELDS[3] == f;
    case Floor => assert FIELDS[4] == f;
    case Direction => assert FIELDS[5] == f;
    case SupplyArea => assert FIELDS[6] == f;
    case ExclusiveArea => assert FIELDS[7] == f;
    case ManagementFee => assert FIELDS[8] == f;
    case MoveInDate => assert FIELDS[9] == f;
    case RoomBathroom => assert FIELDS[10] == f;
    case Loan => assert FIELDS[11] == f;
    case OptionTags => assert FIELDS[12] == f;
    case RegistrationCount => assert FIELDS[13] == f;
    case ArticleIds => assert FIELDS[14] == f;
  }

  predicate Compared(f: Field, details: bool)
  {
    details || f !in DETAIL_FIELDS
  }

  predicate Differs(b: Comparable, a: Comparable, details: bool, f: Field)
  {
    Compared(f, details) && JsonField(b, f) != JsonField(a, f)
  }

  datatype Change = Change(changed: seq<Field>, before: Facts, after: Facts)

  /** The differing fields of `fields`, in that order. */
  function Differing(b: Comparable, a: Comparable, details: bool, fields: seq<Field>): seq<Field>
  {
    if fields == [] then []
    else
      var f := fields[|fields| - 1];
      Differing(b, a, details, fields[..|fields| - 1]) + (if Differs(b, a, details, f) then [f] else [])
  }

  function DiffOver(b: Comparable, a: Comparable, details: bool, fields: seq<Field>): Change
  {
    Change(Differing(b, a, details, fields),
           map f: Field | f in fields && Differs(b, a, details, f) :: JsonField(b, f),
           map f: Field | f in fields && Differs(b, a, details, f) :: JsonField(a, f))
  }

  function Diff(b: Comparable, a: Comparable, details: bool): Change
  {
    DiffOver(b, a, details, FIELDS)
  }

  lemma {:induction false} DifferingMembers(b: Comparable, a: Comparable, details: bool, fields: seq<Field>, f: Field)
    ensures f in Differing(b, a, details, fields) <==> f in fields && Differs(b, a, details, f)
  {
    if fields != [] {
      DifferingMembers(b, a, details, fields[..|fields| - 1], f);
    }
  }

  /** The loop of `compare_listings` over a field table. */
  method CompareOver(b: Comparable, a: Comparable, details: bool, fields: seq<Field>) returns (change: Change)
    ensures change == DiffOver(b, a, details, fields)
  {
    var changed: seq<Field> := [];
    var before: Facts := map[];
    var after: Facts := map[];
    for i := 0 to |fields|
      invariant Change(changed, before, after) == DiffOver(b, a, details, fields[..i])
    {
      var f := fields[i];
      assert fields[..i + 1][..i] == fields[..i];
      if !details && f in DETAIL_FIELDS {
        continue;
      }
      var oldValue, newValue := JsonField(b, f), JsonField(a, f);
      if oldValue != newValue {
        changed := changed + [f];
        before := before[f := oldValue];
        after := after[f := newValue];
      }
    }
    assert fields[..|fields|] == fields;
    change := Change(changed, before, after);
  }

  /** `compare_listings`. */
  method CompareListings(b: Comparable, a: Comparable, details: bool) returns (change: Change)
    ensures change == Diff(b, a, details)
  {
    change := CompareOver(b, a, details, FIELDS);
  }

  /** Apply the `after` half of a diff. */
  function Patch(facts: Facts, change: Change): Facts
  {
    facts + change.after
  }

  /** A diff patches the old observation into the new one on every compared field, and touches no other. */
  lemma DiffPatch(b: Comparable, a: Comparable, details: bool)
    ensures var patched := Patch(Normal(b), Diff(b, a, details));
      && patched.Keys == Normal(a).Keys
      && (forall f: Field ::
            f in patched && patched[f] == if Compared(f, details) then JsonField(a, f) else JsonField(b, f))
      && (details ==> patched == Normal(a))
  {
    EveryFieldListed();
    DiffPatchOver(b, a, details, FIELDS);
  }

  lemma EveryFieldListed()
    ensures forall f: Field :: f in FIELDS
  {
    forall f: Field ensures f in FIELDS { FieldsComplete(f); }
  }

  lemma DiffPatchOver(b: Comparable, a: Comparable, details: bool, fields: seq<Field>)
    requires forall f: Field :: f in fields
    ensures var patched := Patch(Normal(b), DiffOver(b, a, details, fields));
      && patched.Keys == Normal(a).Keys
      && (forall f: Field ::
            f in patched && patched[f] == if Compared(f, details) then JsonField(a, f) else JsonField(b, f))
      && (details ==> patched == Normal(a))
  {
  }

  /** Undoing works too: the `before` half takes the new observation back on every compared field. */
  lemma DiffUnpatch(b: Comparable, a: Comparable, details: bool, f: Field)
    ensures var undone := Normal(a) + Diff(b, a, details).before;
      f in undone && undone[f] == if Compared(f, details) then JsonField(b, f) else JsonField(a, f)
  {
    FieldsComplete(f);
  }

  /** Place of a field in the comparison table. */
  function Position(f: Field): nat
  {
    match f
    case Price => 0 case Deposit => 1 case MonthlyRent => 2 case Building => 3 case Floor => 4
    case Direction => 5 case SupplyArea => 6 case ExclusiveArea => 7 case ManagementFee => 8 case MoveInDate => 9
    case RoomBathroom => 10 case Loan => 11 case OptionTags => 12 case RegistrationCount => 13 case ArticleIds => 14
  }

  lemma PositionAt(k: nat)
    requires k < |FIELDS|
    ensures Position(FIELDS[k]) == k
  {
    assert k in {0, 1, 2, 3, 4, 5, 6, 7, 8, 9, 10, 11, 12, 13, 14};
  }

  predicate InOrder(fields: seq<Field>, n: nat)
  {
    && (forall i :: 0 <= i < |fields| ==> Position(fields[i]) < n)
    && (forall i, j :: 0 <= i < j < |fields| ==> Position(fields[i]) < Position(fields[j]))
  }

  /** The changed fields are listed in table order, each once. */
  lemma DiffOrder(b: Comparable, a: Comparable, details: bool)
    ensures InOrder(Diff(b, a, details).changed, |FIELDS|)
  {
    forall k | 0 <= k < |FIELDS| ensures Position(FIELDS[k]) == k {
      PositionAt(k);
    }
    DifferingOrder(b, a, details, FIELDS);
  }

  lemma {:induction false} DifferingOrder(b: Comparable, a: Comparable, details: bool, fields: seq<Field>)
    requires forall k :: 0 <= k < |fields| ==> Position(fields[k]) == k
    ensures InOrder(Differing(b, a, details, fields), |fields|)
  {
    if fields != [] {
      var n := |fields| - 1;
      DifferingOrder(b, a, details, fields[..n]);
      var rest := Differing(b, a, details, fields[..n]);
      assert InOrder(rest + [fields[n]], n + 1) by {
        var all := rest + [fields[n]];
        forall i | 0 <= i < |all| ensures Position(all[i]) < n + 1 && (i < |rest| ==> Position(all[i]) < n) {
        }
        forall i, j | 0 <= i < j < |all| ensures Position(all[i]) < Position(all[j]) {
          assert j < |rest| ==> all[j] == rest[j] && all[i] == rest[i];
        }
      }
      assert rest + [] == rest;
    }
  }

  /** The listed fields are the keys of both halves; none is listed exactly when nothing compared differs. */
  lemma DiffFields(b: Comparable, a: Comparable, details: bool)
    ensures var c := Diff(b, a, details);
      && c.before.Keys == c.after.Keys == (set f | f in c.changed)
      && (c.changed == [] <==> forall f: Field :: Compared(f, details) ==> JsonField(b, f) == JsonField(a, f))
  {
    EveryFieldListed();
    DiffFieldsOver(b, a, details, FIELDS);
  }

  lemma DiffFieldsOver(b: Comparable, a: Comparable, details: bool, fields: seq<Field>)
    requires forall f: Field :: f in fields
    ensures var c := DiffOver(b, a, details, fields);
      && c.before.Keys == c.after.Keys == (set f | f in c.changed)
      && (c.changed == [] <==> forall f: Field :: Compared(f, details) ==> JsonField(b, f) == JsonField(a, f))
  {
    var c := DiffOver(b, a, details, fields);
    forall f: Field
      ensures f in c.changed <==> Differs(b, a, details, f)
    {
      DifferingMembers(b, a, details, fields, f);
    }
    if c.changed == [] {
      forall f: Field | Compared(f, details) ensures JsonField(b, f) == JsonField(a, f) {
        assert !Differs(b, a, details, f);
      }
    } else {
      assert Differs(b, a, details, c.changed[0]);
    }
  }

  /* ------------------------- visibility ------------------------- */

  datatype Visibility = Active | Missing | Removed

  datatype Kind = New | Changed | Restored | WentMissing | WentRemoved

  datatype Transition = Transition(state: Visibility, missingCount: nat, event: Option<Kind>)

  /** `transition_absence`; `completed` says the run status is "completed". */
  function TransitionAbsence(state: Visibility, missingCount: nat, completed: bool): Transition
  {
    if !completed || state == Removed then Transition(state, missingCount, None)
    else if missingCount + 1 >= 2 then Transition(Removed, 2, Some(WentRemoved))
    else Transition(Missing, 1, Some(WentMissing))
  }

  /** `transition_presence`. */
  function TransitionPresence(state: Visibility, missingCount: nat): Transition
  {
    Transition(Active, 0, if state in {Missing, Removed} then Some(Restored) else None)
  }
}
