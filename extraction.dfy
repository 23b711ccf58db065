/** The nutrient extractor of addFood: it folds the foods of one detail
    response into a single FoodToStore, keeping five tracked nutrient codes. */
module Extraction {
  import opened Records

  /** One entry of a food's nutrient list: its code and its value, still a string. */
  datatype Nutrient = Nutrient(nutrientId: string, value: string)

  /** One food of a detail response: its description name and its nutrient list. */
  datatype Food = Food(name: string, nutrients: seq<Nutrient>)

  /** String-to-number conversion, a partial function: None is a conversion error. */
  type Parser = string -> Option<real>

  /** The five macro-nutrients the ledger tracks. */
  datatype Field = Energy | Protein | Fat | Carbohydrate | Fiber

  /** The API's nutrient code for each tracked field. */
  function Code(fld: Field): string
  {
    match fld
    case Energy => "208"
    case Protein => "203"
    case Fat => "204"
    case Carbohydrate => "205"
    case Fiber => "291"
  }

  /** The switch on the nutrient code: which field a code fills, if any. */
  function FieldOf(code: string): (r: Option<Field>)
    ensures r.Some? ==> Code(r.value) == code
    ensures r.None? ==> forall fld :: Code(fld) != code
  {
    if code == "208" then Some(Energy)
    else if code == "203" then Some(Protein)
    else if code == "204" then Some(Fat)
    else if code == "205" then Some(Carbohydrate)
    else if code == "291" then Some(Fiber)
    else None
  }

  function FieldValue(f: FoodToStore, fld: Field): real
  {
    match fld
    case Energy => f.energy
    case Protein => f.protein
    case Fat => f.fat
    case Carbohydrate => f.carbohydrate
    case Fiber => f.fiber
  }

  /** Assigns one tracked field of the record. */
  function WithField(f: FoodToStore, fld: Field, v: real): (r: FoodToStore)
    ensures FieldValue(r, fld) == v
    ensures forall other :: other != fld ==> FieldValue(r, other) == FieldValue(f, other)
    ensures r.name == f.name && r.qtd == f.qtd
  {
    match fld
    case Energy => f.(energy := v)
    case Protein => f.(protein := v)
    case Fat => f.(fat := v)
    case Carbohydrate => f.(carbohydrate := v)
    case Fiber => f.(fiber := v)
  }

  /** An entry that aborts the extraction: a tracked code whose value does not convert. */
  predicate Unparsable(n: Nutrient, parse: Parser)
  {
    FieldOf(n.nutrientId).Some? && parse(n.value).None?
  }

  /** All nutrient entries of all foods, in the order the loops visit them. */
  function Flatten(foods: seq<Food>): seq<Nutrient>
  {
    if foods == [] then [] else Flatten(foods[..|foods| - 1]) + foods[|foods| - 1].nutrients
  }

  /** The value of the last entry carrying fld's code (and converting), or d when there is none. */
  function LastValueOr(ns: seq<Nutrient>, fld: Field, parse: Parser, d: real): real
  {
    if ns == [] then d
    else
      var n := ns[|ns| - 1];
      if n.nutrientId == Code(fld) && parse(n.value).Some? then parse(n.value).value
      else LastValueOr(ns[..|ns| - 1], fld, parse, d)
  }

  /** The first entry on which the extraction aborts, if any. */
  function FirstUnparsable(ns: seq<Nutrient>, parse: Parser): (r: Option<Nutrient>)
    ensures r.None? <==> forall k :: 0 <= k < |ns| ==> !Unparsable(ns[k], parse)
    ensures r.Some? ==>
      exists k :: 0 <= k < |ns| && ns[k] == r.value && Unparsable(ns[k], parse) &&
        forall j :: 0 <= j < k ==> !Unparsable(ns[j], parse)
  {
    if ns == [] then None
    else if Unparsable(ns[0], parse) then Some(ns[0])
    else
      var r := FirstUnparsable(ns[1..], parse);
      assert forall k :: 1 <= k < |ns| ==> ns[k] == ns[1..][k - 1];
      if r.Some? then
        var k' :| 0 <= k' < |ns[1..]| && ns[1..][k'] == r.value && Unparsable(ns[1..][k'], parse) &&
          forall j :: 0 <= j < k' ==> !Unparsable(ns[1..][j], parse);
        assert ns[k' + 1] == r.value;
        r
      else r
  }

  /** The name of the last food, which the loop writes last; "" when there are no foods. */
  function LastName(foods: seq<Food>): string
  {
    if foods == [] then "" else foods[|foods| - 1].name
  }

  /** What the extraction loop of addFood produces: an abort on the first entry
      that does not convert, otherwise the last food's name and, per tracked
      field, the last matching value across all foods (zero when none). */
  function Extract(foods: seq<Food>, parse: Parser): Result<FoodToStore>
  {
    var ns := Flatten(foods);
    match FirstUnparsable(ns, parse)
    case Some(n) => Err(ParseFailure(n.nutrientId, n.value))
    case None =>
      Ok(FoodToStore(
        LastName(foods),
        LastValueOr(ns, Energy, parse, 0.0),
        LastValueOr(ns, Protein, parse, 0.0),
        LastValueOr(ns, Fat, parse, 0.0),
        LastValueOr(ns, Carbohydrate, parse, 0.0),
        LastValueOr(ns, Fiber, parse, 0.0),
        0.0))
  }

  /** The extraction loop: for each food, set the name, then switch on every
      nutrient code and overwrite the matching field with the converted value. */
  method ExtractNutrients(foods: seq<Food>, parse: Parser) returns (r: Result<FoodToStore>)
    ensures r == Extract(foods, parse)
  {
    var f := Blank;
    var i := 0;
    while i < |foods|
      invariant 0 <= i <= |foods|
      invariant FirstUnparsable(Flatten(foods[..i]), parse).None?
      invariant f.name == LastName(foods[..i]) && f.qtd == 0.0
      invariant forall fld :: FieldValue(f, fld) == LastValueOr(Flatten(foods[..i]), fld, parse, 0.0)
    {
      var food := foods[i];
      f := f.(name := food.name);
      var j := 0;
      ghost var seen := Flatten(foods[..i]);
      while j < |food.nutrients|
        invariant 0 <= j <= |food.nutrients|
        invariant seen == Flatten(foods[..i]) + food.nutrients[..j]
        invariant FirstUnparsable(seen, parse).None?
        invariant f.name == food.name && f.qtd == 0.0
        invariant forall fld :: FieldValue(f, fld) == LastValueOr(seen, fld, parse, 0.0)
      {
        var n := food.nutrients[j];
        ghost var before := f;
        match FieldOf(n.nutrientId) {
          case None =>
          case Some(fld) =>
            match parse(n.value) {
              case None =>
                AbortAt(foods, i, j, parse);
                return Err(ParseFailure(n.nutrientId, n.value));
              case Some(v) =>
                f := WithField(f, fld, v);
            }
        }
        EntryStep(seen, n, before, f, parse);
        assert food.nutrients[..j + 1] == food.nutrients[..j] + [n];
        seen := seen + [n];
        j := j + 1;
      }
      assert food.nutrients[..j] == food.nutrients;
      FoodDone(foods, i);
      i := i + 1;
    }
    ExtractComplete(foods, parse, f);
    return Ok(f);
  }

  // ---------------------------------------------------------------------------
  // Helper lemmas on the flattened entry list

  lemma {:induction false} FlattenAppend(a: seq<Food>, b: seq<Food>)
    ensures Flatten(a + b) == Flatten(a) + Flatten(b)
    decreases |b|
  {
    if b == [] {
      assert a + b == a;
    } else {
      var b', last := b[..|b| - 1], b[|b| - 1];
      assert b == b' + [last];
      assert a + b == (a + b') + [last];
      FlattenSnoc(a + b', last);
      FlattenSnoc(b', last);
      FlattenAppend(a, b');
    }
  }

  lemma {:induction false} FlattenSnoc(foods: seq<Food>, food: Food)
    ensures Flatten(foods + [food]) == Flatten(foods) + food.nutrients
  {
    assert (foods + [food])[..|foods|] == foods;
  }

  /** The entries of food i sit between those of the foods before and after it. */
  lemma {:induction false} FlattenAround(foods: seq<Food>, i: nat)
    requires i < |foods|
    ensures Flatten(foods) == Flatten(foods[..i]) + foods[i].nutrients + Flatten(foods[i + 1..])
  {
    var pre, post := foods[..i], foods[i + 1..];
    var mid := pre + [foods[i]];
    assert foods == mid + post;
    FlattenAppend(mid, post);
    assert Flatten(foods) == Flatten(mid) + Flatten(post);
    FlattenSnoc(pre, foods[i]);
    assert Flatten(mid) == Flatten(pre) + foods[i].nutrients;
  }

  /** Cutting the entry list inside food i, before its entry j. */
  lemma {:induction false} FlattenSplitAt(foods: seq<Food>, i: nat, j: nat)
    requires i < |foods| && j <= |foods[i].nutrients|
    ensures Flatten(foods) ==
      (Flatten(foods[..i]) + foods[i].nutrients[..j]) + (foods[i].nutrients[j..] + Flatten(foods[i + 1..]))
  {
    FlattenAround(foods, i);
    var ns := foods[i].nutrients;
    assert ns == ns[..j] + ns[j..];
    assert Flatten(foods[..i]) + ns + Flatten(foods[i + 1..]) ==
      (Flatten(foods[..i]) + ns[..j]) + (ns[j..] + Flatten(foods[i + 1..]));
  }

  /** The loop stops at entry j of food i when everything before it converted. */
  lemma {:induction false} AbortAt(foods: seq<Food>, i: nat, j: nat, parse: Parser)
    requires i < |foods| && j < |foods[i].nutrients|
    requires FirstUnparsable(Flatten(foods[..i]) + foods[i].nutrients[..j], parse).None?
    requires Unparsable(foods[i].nutrients[j], parse)
    ensures FirstUnparsable(Flatten(foods), parse) == Some(foods[i].nutrients[j])
    ensures Extract(foods, parse) == Err(ParseFailure(foods[i].nutrients[j].nutrientId, foods[i].nutrients[j].value))
  {
    FlattenSplitAt(foods, i, j);
    var rest := foods[i].nutrients[j..] + Flatten(foods[i + 1..]);
    FirstUnparsableAppend(Flatten(foods[..i]) + foods[i].nutrients[..j], rest, parse);
    assert rest[0] == foods[i].nutrients[j];
  }

  /** The outer loop's step: food i's entries follow those of the foods before it. */
  lemma {:induction false} FoodDone(foods: seq<Food>, i: nat)
    requires i < |foods|
    ensures Flatten(foods[..i + 1]) == Flatten(foods[..i]) + foods[i].nutrients
    ensures LastName(foods[..i + 1]) == foods[i].name
  {
    assert foods[..i + 1] == foods[..i] + [foods[i]];
    FlattenSnoc(foods[..i], foods[i]);
  }

  /** The record the loop holds once all foods are done is the one Extract describes. */
  lemma {:induction false} ExtractComplete(foods: seq<Food>, parse: Parser, f: FoodToStore)
    requires FirstUnparsable(Flatten(foods[..|foods|]), parse).None?
    requires f.name == LastName(foods[..|foods|]) && f.qtd == 0.0
    requires forall fld :: FieldValue(f, fld) == LastValueOr(Flatten(foods[..|foods|]), fld, parse, 0.0)
    ensures Extract(foods, parse) == Ok(f)
  {
    assert foods[..|foods|] == foods;
    assert FieldValue(f, Energy) == f.energy && FieldValue(f, Protein) == f.protein;
    assert FieldValue(f, Fat) == f.fat && FieldValue(f, Carbohydrate) == f.carbohydrate;
    assert FieldValue(f, Fiber) == f.fiber;
  }

  /** Every flattened entry is entry j of some food i. */
  lemma {:induction false} FlattenHas(foods: seq<Food>, k: nat)
    requires k < |Flatten(foods)|
    ensures exists i, j :: 0 <= i < |foods| && 0 <= j < |foods[i].nutrients| &&
                          Flatten(foods)[k] == foods[i].nutrients[j]
    decreases |foods|
  {
    var m := |foods| - 1;
    var front := Flatten(foods[..m]);
    if k < |front| {
      FlattenHas(foods[..m], k);
      var i, j :| 0 <= i < |foods[..m]| && 0 <= j < |foods[..m][i].nutrients| &&
        front[k] == foods[..m][i].nutrients[j];
      assert foods[i] == foods[..m][i];
    } else {
      assert Flatten(foods)[k] == foods[m].nutrients[k - |front|];
    }
  }

  /** No food carries fld's code anywhere, so no flattened entry does. */
  lemma {:induction false} NoCodeInFlatten(foods: seq<Food>, fld: Field)
    requires forall i, j :: 0 <= i < |foods| && 0 <= j < |foods[i].nutrients| ==>
      foods[i].nutrients[j].nutrientId != Code(fld)
    ensures forall k :: 0 <= k < |Flatten(foods)| ==> Flatten(foods)[k].nutrientId != Code(fld)
  {
    forall k | 0 <= k < |Flatten(foods)|
      ensures Flatten(foods)[k].nutrientId != Code(fld)
    {
      FlattenHas(foods, k);
    }
  }

  lemma {:induction false} LastValueAppend(a: seq<Nutrient>, b: seq<Nutrient>, fld: Field, parse: Parser, d: real)
    ensures LastValueOr(a + b, fld, parse, d) == LastValueOr(b, fld, parse, LastValueOr(a, fld, parse, d))
    decreases |b|
  {
    if b == [] {
      assert a + b == a;
    } else {
      assert (a + b)[..|a + b| - 1] == a + b[..|b| - 1];
      LastValueAppend(a, b[..|b| - 1], fld, parse, d);
    }
  }

  /** One pass of the switch keeps the inner loop's invariants. */
  lemma {:induction false} EntryStep(seen: seq<Nutrient>, n: Nutrient, f: FoodToStore, f': FoodToStore, parse: Parser)
    requires FirstUnparsable(seen, parse).None? && !Unparsable(n, parse)
    requires forall fld :: FieldValue(f, fld) == LastValueOr(seen, fld, parse, 0.0)
    requires FieldOf(n.nutrientId).None? ==> f' == f
    requires FieldOf(n.nutrientId).Some? ==>
      f' == WithField(f, FieldOf(n.nutrientId).value, parse(n.value).value)
    ensures FirstUnparsable(seen + [n], parse).None?
    ensures forall fld :: FieldValue(f', fld) == LastValueOr(seen + [n], fld, parse, 0.0)
  {
    LastValueSnoc(seen, n, parse);
    FirstUnparsableAppend(seen, [n], parse);
  }

  /** One more entry overwrites exactly the field its code selects, when it converts. */
  lemma {:induction false} LastValueSnoc(ns: seq<Nutrient>, n: Nutrient, parse: Parser)
    ensures forall fld :: LastValueOr(ns + [n], fld, parse, 0.0) ==
                          if n.nutrientId == Code(fld) && parse(n.value).Some? then parse(n.value).value
                          else LastValueOr(ns, fld, parse, 0.0)
  {
    assert (ns + [n])[..|ns|] == ns;
  }

  lemma {:induction false} LastValueNoMatch(ns: seq<Nutrient>, fld: Field, parse: Parser, d: real)
    requires forall k :: 0 <= k < |ns| ==> ns[k].nutrientId != Code(fld)
    ensures LastValueOr(ns, fld, parse, d) == d
    decreases |ns|
  {
    if ns != [] {
      LastValueNoMatch(ns[..|ns| - 1], fld, parse, d);
    }
  }

  lemma {:induction false} FirstUnparsableAppend(a: seq<Nutrient>, b: seq<Nutrient>, parse: Parser)
    requires FirstUnparsable(a, parse).None?
    ensures FirstUnparsable(a + b, parse) == FirstUnparsable(b, parse)
    decreases |a|
  {
    if a == [] {
      assert a + b == b;
    } else {
      assert (a + b)[1..] == a[1..] + b;
      assert !Unparsable(a[0], parse);
      FirstUnparsableAppend(a[1..], b, parse);
    }
  }

  lemma {:induction false} FirstUnparsableSkip(a: seq<Nutrient>, n: Nutrient, b: seq<Nutrient>, parse: Parser)
    requires FieldOf(n.nutrientId).None?
    ensures FirstUnparsable(a + [n] + b, parse) == FirstUnparsable(a + b, parse)
    decreases |a|
  {
    if a == [] {
      assert a + [n] + b == [n] + b && ([n] + b)[1..] == b && a + b == b;
    } else {
      assert (a + [n] + b)[0] == a[0] && (a + b)[0] == a[0];
      assert (a + [n] + b)[1..] == a[1..] + [n] + b;
      assert (a + b)[1..] == a[1..] + b;
      FirstUnparsableSkip(a[1..], n, b, parse);
    }
  }

  // ---------------------------------------------------------------------------
  // Properties of the extraction

  /** The add aborts exactly when some food has a tracked entry whose value does not convert. */
  lemma {:induction false} ExtractFails(foods: seq<Food>, parse: Parser)
    ensures Extract(foods, parse).Err? <==>
      (exists i, j :: 0 <= i < |foods| && 0 <= j < |foods[i].nutrients| &&
         Unparsable(foods[i].nutrients[j], parse))
    ensures Extract(foods, parse).Err? ==>
      Extract(foods, parse).error.ParseFailure? &&
      FieldOf(Extract(foods, parse).error.nutrientId).Some?
  {
    if Extract(foods, parse).Err? {
      var ns := Flatten(foods);
      var k :| 0 <= k < |ns| && Unparsable(ns[k], parse);
      FlattenHas(foods, k);
    }
    if exists i, j :: 0 <= i < |foods| && 0 <= j < |foods[i].nutrients| &&
        Unparsable(foods[i].nutrients[j], parse) {
      var i, j :| 0 <= i < |foods| && 0 <= j < |foods[i].nutrients| &&
        Unparsable(foods[i].nutrients[j], parse);
      EntryAt(foods, i, j);
    }
  }

  /** Entry j of food i has a place in the flattened list. */
  lemma {:induction false} EntryAt(foods: seq<Food>, i: nat, j: nat)
    requires i < |foods| && j < |foods[i].nutrients|
    ensures |Flatten(foods[..i])| + j < |Flatten(foods)|
    ensures Flatten(foods)[|Flatten(foods[..i])| + j] == foods[i].nutrients[j]
  {
    FlattenAround(foods, i);
  }

  /** A code that appears in no food leaves its field at zero. */
  lemma {:induction false} AbsentCodeStaysZero(foods: seq<Food>, parse: Parser, fld: Field)
    requires forall i, j :: 0 <= i < |foods| && 0 <= j < |foods[i].nutrients| ==>
      foods[i].nutrients[j].nutrientId != Code(fld)
    ensures Extract(foods, parse).Ok? ==> FieldValue(Extract(foods, parse).value, fld) == 0.0
  {
    NoCodeInFlatten(foods, fld);
    LastValueNoMatch(Flatten(foods), fld, parse, 0.0);
  }

  /** Last wins: the field holds the value of the last entry with its code,
      across all foods, whatever earlier entries held. */
  lemma {:induction false} LastMatchWins(foods: seq<Food>, parse: Parser, fld: Field, i: nat, j: nat)
    requires i < |foods| && j < |foods[i].nutrients|
    requires foods[i].nutrients[j].nutrientId == Code(fld)
    requires forall j' :: j < j' < |foods[i].nutrients| ==> foods[i].nutrients[j'].nutrientId != Code(fld)
    requires forall i', j' :: i < i' < |foods| && 0 <= j' < |foods[i'].nutrients| ==>
      foods[i'].nutrients[j'].nutrientId != Code(fld)
    requires Extract(foods, parse).Ok?
    ensures parse(foods[i].nutrients[j].value).Some?
    ensures FieldValue(Extract(foods, parse).value, fld) == parse(foods[i].nutrients[j].value).value
  {
    EntryAt(foods, i, j);
    LastValueAt(foods, parse, fld, i, j);
  }

  lemma {:induction false} LastValueAt(foods: seq<Food>, parse: Parser, fld: Field, i: nat, j: nat)
    requires i < |foods| && j < |foods[i].nutrients|
    requires foods[i].nutrients[j].nutrientId == Code(fld)
    requires parse(foods[i].nutrients[j].value).Some?
    requires forall j' :: j < j' < |foods[i].nutrients| ==> foods[i].nutrients[j'].nutrientId != Code(fld)
    requires forall i', j' :: i < i' < |foods| && 0 <= j' < |foods[i'].nutrients| ==>
      foods[i'].nutrients[j'].nutrientId != Code(fld)
    ensures LastValueOr(Flatten(foods), fld, parse, 0.0) == parse(foods[i].nutrients[j].value).value
  {
    var ns := foods[i].nutrients;
    var n := ns[j];
    FlattenSplitAt(foods, i, j + 1);
    var front := Flatten(foods[..i]) + ns[..j + 1];
    var back := ns[j + 1..] + Flatten(foods[i + 1..]);
    assert ns[..j + 1] == ns[..j] + [n];
    var v := parse(n.value).value;
    LastValueSnoc(Flatten(foods[..i]) + ns[..j], n, parse);
    NoCodeAfter(foods, fld, i, j);
    LastValueAppend(front, back, fld, parse, 0.0);
    LastValueNoMatch(back, fld, parse, v);
  }

  /** The entries after entry j of food i, when none of them carries fld's code. */
  lemma {:induction false} NoCodeAfter(foods: seq<Food>, fld: Field, i: nat, j: nat)
    requires i < |foods| && j < |foods[i].nutrients|
    requires forall j' :: j < j' < |foods[i].nutrients| ==> foods[i].nutrients[j'].nutrientId != Code(fld)
    requires forall i', j' :: i < i' < |foods| && 0 <= j' < |foods[i'].nutrients| ==>
      foods[i'].nutrients[j'].nutrientId != Code(fld)
    ensures var back := foods[i].nutrients[j + 1..] + Flatten(foods[i + 1..]);
      forall k :: 0 <= k < |back| ==> back[k].nutrientId != Code(fld)
  {
    var rest := foods[i + 1..];
    var tail := foods[i].nutrients[j + 1..];
    forall i', j' | 0 <= i' < |rest| && 0 <= j' < |rest[i'].nutrients|
      ensures rest[i'].nutrients[j'].nutrientId != Code(fld)
    {
      assert rest[i'] == foods[i + 1 + i'];
    }
    NoCodeInFlatten(rest, fld);
    forall k | 0 <= k < |tail + Flatten(rest)|
      ensures (tail + Flatten(rest))[k].nutrientId != Code(fld)
    {
      if k >= |tail| {
        assert (tail + Flatten(rest))[k] == Flatten(rest)[k - |tail|];
      } else {
        assert tail[k] == foods[i].nutrients[j + 1 + k];
      }
    }
  }

  /** Puts the untracked entry n at position j of food i's nutrient list. */
  function InsertNutrient(foods: seq<Food>, i: nat, j: nat, n: Nutrient): seq<Food>
    requires i < |foods| && j <= |foods[i].nutrients|
  {
    foods[i := foods[i].(nutrients := foods[i].nutrients[..j] + [n] + foods[i].nutrients[j..])]
  }

  /** An entry whose code is not tracked changes nothing in the extracted record. */
  lemma {:induction false} UntrackedIgnored(foods: seq<Food>, parse: Parser, i: nat, j: nat, n: Nutrient)
    requires i < |foods| && j <= |foods[i].nutrients|
    requires FieldOf(n.nutrientId).None?
    ensures Extract(InsertNutrient(foods, i, j, n), parse) == Extract(foods, parse)
  {
    var ns := foods[i].nutrients;
    var a := Flatten(foods[..i]) + ns[..j];
    var b := ns[j..] + Flatten(foods[i + 1..]);
    InsertedEntries(foods, i, j, n);
    FirstUnparsableSkip(a, n, b, parse);
    forall fld
      ensures LastValueOr(a + [n] + b, fld, parse, 0.0) == LastValueOr(a + b, fld, parse, 0.0)
    {
      LastValueSkip(a, n, b, fld, parse);
    }
    SameEntriesSameRecord(InsertNutrient(foods, i, j, n), foods, parse);
  }

  /** Where the inserted entry lands in the flattened list. */
  lemma {:induction false} InsertedEntries(foods: seq<Food>, i: nat, j: nat, n: Nutrient)
    requires i < |foods| && j <= |foods[i].nutrients|
    ensures var ns := foods[i].nutrients;
      var a := Flatten(foods[..i]) + ns[..j];
      var b := ns[j..] + Flatten(foods[i + 1..]);
      && Flatten(foods) == a + b
      && Flatten(InsertNutrient(foods, i, j, n)) == a + [n] + b
      && LastName(InsertNutrient(foods, i, j, n)) == LastName(foods)
  {
    var ns := foods[i].nutrients;
    InsertSlices(foods, i, j, n);
    FlattenSplitAt(foods, i, j);
    FlattenSplitAt(InsertNutrient(foods, i, j, n), i, j);
    var a := Flatten(foods[..i]) + ns[..j];
    var b := ns[j..] + Flatten(foods[i + 1..]);
    assert a + ([n] + b) == a + [n] + b;
  }

  lemma {:induction false} InsertSlices(foods: seq<Food>, i: nat, j: nat, n: Nutrient)
    requires i < |foods| && j <= |foods[i].nutrients|
    ensures var foods' := InsertNutrient(foods, i, j, n);
      && foods'[..i] == foods[..i] && foods'[i + 1..] == foods[i + 1..]
      && foods'[i].nutrients[..j] == foods[i].nutrients[..j]
      && foods'[i].nutrients[j..] == [n] + foods[i].nutrients[j..]
  {
  }

  lemma {:induction false} LastValueSkip(a: seq<Nutrient>, n: Nutrient, b: seq<Nutrient>, fld: Field, parse: Parser)
    requires FieldOf(n.nutrientId).None?
    ensures LastValueOr(a + [n] + b, fld, parse, 0.0) == LastValueOr(a + b, fld, parse, 0.0)
  {
    LastValueAppend(a + [n], b, fld, parse, 0.0);
    LastValueAppend(a, b, fld, parse, 0.0);
    LastValueSnoc(a, n, parse);
  }

  /** Extraction depends only on the entry list and the last food's name. */
  lemma {:induction false} SameEntriesSameRecord(foods: seq<Food>, foods': seq<Food>, parse: Parser)
    requires LastName(foods) == LastName(foods')
    requires FirstUnparsable(Flatten(foods), parse) == FirstUnparsable(Flatten(foods'), parse)
    requires forall fld :: LastValueOr(Flatten(foods), fld, parse, 0.0) == LastValueOr(Flatten(foods'), fld, parse, 0.0)
    ensures Extract(foods, parse) == Extract(foods', parse)
  {
    var ns, ns' := Flatten(foods), Flatten(foods');
    assert LastValueOr(ns, Energy, parse, 0.0) == LastValueOr(ns', Energy, parse, 0.0);
    assert LastValueOr(ns, Protein, parse, 0.0) == LastValueOr(ns', Protein, parse, 0.0);
    assert LastValueOr(ns, Fat, parse, 0.0) == LastValueOr(ns', Fat, parse, 0.0);
    assert LastValueOr(ns, Carbohydrate, parse, 0.0) == LastValueOr(ns', Carbohydrate, parse, 0.0);
    assert LastValueOr(ns, Fiber, parse, 0.0) == LastValueOr(ns', Fiber, parse, 0.0);
  }
}
