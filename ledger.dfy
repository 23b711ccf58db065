/** The daily ledger of addFood, removeFoodEntry and showDayData: a map from
    date to a map from food identifier (ndbno) to the stored record. */
module DailyLedger {
  import opened Records
  import Extraction

  /** The foods logged on one day, by ndbno. */
  type Day = map<string, FoodToStore>

  /** The whole ledger, by date ("2006-01-02" layout in the program). */
  type Days = map<string, Day>

  /** The merge step of addFood, with the date passed in. When the date has no
      foods yet, or has foods but not this ndbno, the day becomes a map holding
      this one food, so in the second case the foods logged earlier that day
      are dropped. When the ndbno is already there, only its quantity grows. */
  function Merge(days: Days, date: string, ndbno: string, f: FoodToStore, qtd: real): (r: Days)
    ensures r.Keys == days.Keys + {date}
    ensures forall d :: d in days && d != date ==> r[d] == days[d]
    ensures ndbno in r[date]
    ensures date !in days || ndbno !in days[date] ==>
      r[date].Keys == {ndbno} && r[date][ndbno] == f.(qtd := qtd)
    ensures date in days && ndbno in days[date] ==>
      var stored := days[date][ndbno];
      && r[date][ndbno].qtd == stored.qtd + qtd
      && r[date][ndbno] == stored.(qtd := r[date][ndbno].qtd)
      && r[date].Keys == days[date].Keys
      && forall k :: k in days[date] && k != ndbno ==> r[date][k] == days[date][k]
  {
    if date !in days then
      days[date := map[ndbno := f.(qtd := qtd)]]
    else if ndbno !in days[date] then
      days[date := map[ndbno := f.(qtd := qtd)]]
    else
      var temp := days[date][ndbno];
      days[date := days[date][ndbno := temp.(qtd := temp.qtd + qtd)]]
  }

  /** The delete branch of removeFoodEntry: a date that is not a key of the
      ledger is an error, otherwise ndbno is taken out of that day, present or not. */
  function Erase(days: Days, date: string, ndbno: string): (r: Result<Days>)
    ensures r.Err? <==> date !in days
    ensures r.Err? ==> r.error == NoRecordForDay
    ensures r.Ok? ==>
      && r.value.Keys == days.Keys
      && r.value[date].Keys == days[date].Keys - {ndbno}
      && (forall k :: k in r.value[date] ==> r.value[date][k] == days[date][k])
      && (forall d :: d in days && d != date ==> r.value[d] == days[d])
    ensures r.Ok? && ndbno !in days[date] ==> r.value == days
  {
    if date in days then
      var day := days[date] - {ndbno};
      assert ndbno !in days[date] ==> day == days[date] && days[date := day] == days;
      Ok(days[date := day])
    else Err(NoRecordForDay)
  }

  /** One add request: the record the extractor built and the quantity asked for. */
  datatype Addition = Addition(food: FoodToStore, qtd: real)

  /** Several adds of the same ndbno on the same date, in order. */
  function MergeAll(days: Days, date: string, ndbno: string, adds: seq<Addition>): Days
    decreases |adds|
  {
    if adds == [] then days
    else MergeAll(Merge(days, date, ndbno, adds[0].food, adds[0].qtd), date, ndbno, adds[1..])
  }

  function TotalQtd(adds: seq<Addition>): real
    decreases |adds|
  {
    if adds == [] then 0.0 else adds[0].qtd + TotalQtd(adds[1..])
  }

  /** Repeated adds of a food already logged that day sum their quantities
      into the stored record and keep its name and nutrient values; the rest
      of that day and every other day stay as they were. */
  lemma {:induction false} RepeatedAddsAccumulate(days: Days, date: string, ndbno: string, adds: seq<Addition>)
    requires date in days && ndbno in days[date]
    ensures var r := MergeAll(days, date, ndbno, adds);
      && r.Keys == days.Keys
      && (forall d :: d in days && d != date ==> r[d] == days[d])
      && r[date].Keys == days[date].Keys
      && r[date][ndbno] == days[date][ndbno].(qtd := days[date][ndbno].qtd + TotalQtd(adds))
      && (forall k :: k in days[date] && k != ndbno ==> r[date][k] == days[date][k])
    decreases |adds|
  {
    if adds != [] {
      var next := Merge(days, date, ndbno, adds[0].food, adds[0].qtd);
      RepeatedAddsAccumulate(next, date, ndbno, adds[1..]);
    }
  }

  /** Starting from a date that is not a key, or whose day lacks ndbno, a run
      of adds of one ndbno leaves that day holding only the first add's record,
      with the sum of all the quantities; any other foods of that day are gone. */
  lemma {:induction false} FirstAddFreezesRecord(days: Days, date: string, ndbno: string, adds: seq<Addition>)
    requires (date !in days || ndbno !in days[date]) && adds != []
    ensures var r := MergeAll(days, date, ndbno, adds);
      && r.Keys == days.Keys + {date}
      && (forall d :: d in days && d != date ==> r[d] == days[d])
      && r[date] == map[ndbno := adds[0].food.(qtd := TotalQtd(adds))]
  {
    var first := Merge(days, date, ndbno, adds[0].food, adds[0].qtd);
    assert first[date] == map[ndbno := adds[0].food.(qtd := adds[0].qtd)];
    RepeatedAddsAccumulate(first, date, ndbno, adds[1..]);
    var r := MergeAll(first, date, ndbno, adds[1..]);
    assert r[date].Keys == {ndbno};
    assert r[date][ndbno] == adds[0].food.(qtd := TotalQtd(adds));
  }

  /** Removing the only food of a day keeps the date as a key with an empty
      day, so showing or removing on that date afterwards still succeeds. */
  lemma RemoveLastFoodKeepsDay(days: Days, date: string, ndbno: string)
    requires date in days && days[date].Keys == {ndbno}
    ensures Erase(days, date, ndbno).Ok?
    ensures date in Erase(days, date, ndbno).value
    ensures Erase(days, date, ndbno).value[date] == map[]
  {
    var r := Erase(days, date, ndbno).value;
    assert r[date].Keys == {};
  }

  /** The ledger as the program holds it between loading and saving the JSON file. */
  class Ledger {
    var days: Days

    /** The ledger addFood starts from when no file exists yet. */
    constructor ()
      ensures days == map[]
    {
      days := map[];
    }

    /** addFood for a given date: extract the record from the detail response,
        stopping with the conversion error before the ledger is touched, then
        merge it into that date. */
    method AddFood(date: string, ndbno: string, foods: seq<Extraction.Food>, parse: Extraction.Parser, qtd: real)
      returns (r: Outcome)
      modifies this
      ensures Extraction.Extract(foods, parse).Err? ==>
        r == Fail(Extraction.Extract(foods, parse).error) && days == old(days)
      ensures Extraction.Extract(foods, parse).Ok? ==>
        r == Pass && days == Merge(old(days), date, ndbno, Extraction.Extract(foods, parse).value, qtd)
    {
      var extracted := Extraction.ExtractNutrients(foods, parse);
      if extracted.Err? {
        return Fail(extracted.error);
      }
      var f := extracted.value;
      if date !in days {
        f := f.(qtd := qtd);
        var ndbnoToFood := map[ndbno := f];
        days := days[date := ndbnoToFood];
      } else if ndbno !in days[date] {
        f := f.(qtd := qtd);
        var ndbnoToFood := map[ndbno := f];
        days := days[date := ndbnoToFood];
      } else {
        var temp := days[date][ndbno];
        temp := temp.(qtd := temp.qtd + qtd);
        days := days[date := days[date][ndbno := temp]];
      }
      return Pass;
    }

    /** removeFoodEntry for a given date. */
    method RemoveFoodEntry(date: string, ndbno: string) returns (r: Outcome)
      modifies this
      ensures date in old(days) ==> r == Pass && days == Erase(old(days), date, ndbno).value
      ensures date !in old(days) ==> r == Fail(NoRecordForDay) && days == old(days)
    {
      if date in days {
        var day := days[date];
        day := day - {ndbno};
        days := days[date := day];
        r := Pass;
      } else {
        r := Fail(NoRecordForDay);
      }
    }

    /** showDayData: the stored day for the date, or the missing-day error. */
    method ShowDayData(date: string) returns (r: Result<Day>)
      ensures r.Ok? <==> date in days
      ensures r.Ok? ==> r.value == days[date]
      ensures r.Err? ==> r.error == NoRecordForDay
    {
      if date in days {
        r := Ok(days[date]);
      } else {
        r := Err(NoRecordForDay);
      }
    }
  }

  /** An example on 2024-01-01: 50 g of food 01009 on an empty ledger, then
      30 g more, then a remove. */
  method SameDayScenario(parse: Extraction.Parser)
    requires parse("10.5") == Some(10.5)
  {
    var ledger := new Ledger();
    var cheese := [Extraction.Food("Cheese, cheddar", [Extraction.Nutrient("208", "10.5")])];
    var r := ledger.AddFood("2024-01-01", "01009", cheese, parse, 50.0);
    assert Extraction.Flatten(cheese) == cheese[0].nutrients;
    assert r == Pass;
    var shown := ledger.ShowDayData("2024-01-01");
    assert shown == Ok(map["01009" := FoodToStore("Cheese, cheddar", 10.5, 0.0, 0.0, 0.0, 0.0, 50.0)]);
    r := ledger.AddFood("2024-01-01", "01009", cheese, parse, 30.0);
    shown := ledger.ShowDayData("2024-01-01");
    assert shown.value["01009"].qtd == 80.0;
    r := ledger.RemoveFoodEntry("2024-01-01", "01009");
    shown := ledger.ShowDayData("2024-01-01");
    assert shown == Ok(map[]);
  }
}
