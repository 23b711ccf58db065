# caloriecounter: the daily ledger and the nutrient extractor

caloriecounter is a command-line tool over the USDA nutrient database API that
keeps a per-day log of foods eaten. This project models the two parts of
`main.go` that hold logic, and proves their properties in Dafny:

- **The nutrient extractor** (`addFood`, main.go:323-361). It folds the foods of a
  detail response into one `FoodToStore`. Code 208 fills Energy, 203 Protein,
  204 Fat, 205 Carbohydrate and 291 Fiber. Other codes are skipped. A later match
  overwrites an earlier one, across all foods. The name is the last food's name.
  A tracked value that does not convert to a number aborts the add. Module
  `Extraction`: the method `ExtractNutrients` keeps the source's nested loops. It
  is proved equal to the function `Extract`, which states the result directly:
  the first entry that does not convert, or else the last matching value per
  field.
- **The daily ledger** (`addFood`, `removeFoodEntry`, `showDayData`). The ledger is
  a map from date to a map from food identifier (ndbno) to `FoodToStore`. Module
  `DailyLedger`: the class `Ledger` holds that map in its field `days`. Its
  methods change it in place as the Go code does. Each method is proved equal to
  a specification function (`Merge`, `Erase`) whose contract states the outcome
  per branch.

Every ledger operation takes the date as a parameter. In the program, add and
remove use the wall-clock date (`getToday`) and show uses the `-day` flag. Fatal
exits (`log.Fatalf`) become an `Err`/`Fail` result carrying an `Error`.

The add merge is modelled as the code is written. When the date already has
foods but not this ndbno, main.go:385-389 replaces that day's map with a fresh
one-entry map (the comment at main.go:386 says so), so the foods logged earlier
that day are lost. `Merge` states this (`r[date].Keys == {ndbno}`).

A date counts as present when it is a key of the ledger (main.go:279, 307 and
376), whether or not its day holds any food. Removing the last food of a day
keeps the date's key with an empty day (main.go:280), so a later show or
remove for that date succeeds rather than failing with the missing-day error.

## Model

| member | source | states |
|---|---|---|
| `Extraction.FieldOf` | main.go:328-359 | the switch selects a field exactly for the five tracked codes, and the selected field's code is the code switched on (`Code` is the inverse table); every other code selects nothing |
| `Extraction.WithField` | main.go:334-358 | each case writes only its own field; the other four fields, the name and the quantity are unchanged |
| `Extraction.FirstUnparsable` | main.go:329-358 | finds no entry exactly when every tracked entry converts; otherwise finds the first tracked entry that does not convert |
| `Extraction.ExtractNutrients` | main.go:323-361 | the nested loop with its switch returns `Extract`: it aborts on the first tracked entry that does not convert, and otherwise returns the last food's name, the last converted value per tracked field across all foods (zero when there is none) and quantity zero |
| `Extraction.ExtractFails` | main.go:329-358 | the add aborts if and only if some food has a tracked entry whose value does not convert, and the error names a tracked code |
| `Extraction.AbsentCodeStaysZero` | main.go:323-361 | a tracked code that appears in no food leaves its field at the zero default |
| `Extraction.LastMatchWins` | main.go:325-358 | a field holds the value of the last entry with its code, across all foods, whatever earlier entries held |
| `Extraction.UntrackedIgnored` | main.go:328-359 | inserting an entry with an untracked code anywhere in any food changes neither the extracted record nor the abort |
| `DailyLedger.Merge` | main.go:376-396 | the date key is added and no date key is removed; other dates are unchanged; a new date, or a date lacking the ndbno, ends with exactly the single food with quantity qtd (earlier foods of that day are dropped); an ndbno already present keeps its name and nutrient values, its quantity grows by qtd, and the day's other foods are unchanged |
| `DailyLedger.Erase` | main.go:279-293 | fails with the missing-day error exactly when the date is not a key of the ledger; otherwise the ndbno is no longer in that day, the day's other foods and all other dates are unchanged, and removing an absent ndbno leaves the ledger equal to what it was |
| `DailyLedger.RepeatedAddsAccumulate` | main.go:390-394 | repeated adds of an ndbno already present that day give quantity = stored quantity + sum of the added quantities, with name and nutrients unchanged and the rest of the ledger untouched |
| `DailyLedger.FirstAddFreezesRecord` | main.go:376-394 | from a date that is not a key, or is a key whose day lacks the ndbno (empty, or holding other foods, which the first add drops), a run of adds of one ndbno leaves that day holding only the first add's record, with quantity the sum of all the quantities; the other dates are unchanged |
| `DailyLedger.RemoveLastFoodKeepsDay` | main.go:279-280 | removing the only food of a day keeps the date as a key with an empty day, so the day is still found afterwards (no missing-day error) |
| `DailyLedger.Ledger.constructor` | main.go:363 | the ledger starts empty, as addFood does when no ledger file exists |
| `DailyLedger.Ledger.AddFood` | main.go:319-396 | a conversion failure returns that error and leaves the ledger as it was; otherwise the new ledger is `Merge` of the old one with the extracted record |
| `DailyLedger.Ledger.RemoveFoodEntry` | main.go:267-294 | a date that is a key of the ledger gives success and the ledger becomes `Erase` of the old one; a date that is not a key gives the missing-day error and the ledger is unchanged |
| `DailyLedger.Ledger.ShowDayData` | main.go:296-317 | returns the stored day unchanged (possibly empty) when the date is a key of the ledger, and the missing-day error when it is not; it changes nothing |

## Left out

- The HTTP client and request building (`getAPI`, `getFoodsList`, `searchFood`, `getFoodByNdbno`): network I/O. `AddFood` receives the foods of the detail response as a parameter.
- Loading and saving `calorietracker.json` (JSON encoding, file stat, read and write). The ledger is the in-memory field `days`. Two consequences: a missing file on remove and show (a fatal error in the program) is not modelled, and the ignored `json.Unmarshal` errors are not modelled.
- `getToday`: it reads the wall clock, so the date is a parameter of every ledger operation.
- `strconv.ParseFloat`: conversion is an abstract partial function `string -> Option<real>` given as a parameter.
- float64 arithmetic: the values and quantities are exact reals, so rounding in `Qtd + qtd` is not modelled. Nor are non-finite values: `strconv.ParseFloat` accepts "NaN" and "Inf" without error, and `json.MarshalIndent` then fails on them (main.go:398-401), so the program aborts such an add, while `AddFood` here returns `Pass` for any value the parser yields.
- The `String()` printers, the console output and the response fields other than the food name and the nutrient code and value: formatting and the external wire format.
- Flag parsing and action dispatch in `main`.
- Aliasing of the inner Go maps: `delete(val, ndbno)` in removeFoodEntry edits the day's map in place through a second reference. Here the day is a value inside `days`, reached only through the outer map, and the method writes the changed day back.
- A JSON `null` day loads in Go as a nil map that is present under its date. The model has no nil map; such a day behaves as an empty day, which matches the Go behaviour for these operations.
