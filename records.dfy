/** Values shared by the nutrient extractor and the daily ledger. */
module Records {

  /** The record kept per food and per day in the ledger. The five nutrient
      values and the quantity are float64 in the program; they are exact reals here. */
  datatype FoodToStore = FoodToStore(
    name: string,
    energy: real,
    protein: real,
    fat: real,
    carbohydrate: real,
    fiber: real,
    qtd: real)

  /** The zero value of FoodToStore: every field the extractor never fills keeps it. */
  const Blank: FoodToStore := FoodToStore("", 0.0, 0.0, 0.0, 0.0, 0.0, 0.0)

  datatype Option<T> = None | Some(value: T)

  /** The conditions on which the program stops with a fatal log line. */
  datatype Error =
    | NoRecordForDay                                   // "There is no record for the requested day"
    | ParseFailure(nutrientId: string, value: string)  // a tracked nutrient value that is not a number

  datatype Result<T> = Ok(value: T) | Err(error: Error)

  /** The result of an operation that only changes the ledger. */
  datatype Outcome = Pass | Fail(error: Error)
}
