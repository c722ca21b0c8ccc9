/** The result of running a flow: a value, or an error with optional data. */
module FlowResults {
  import opened Basics
  import opened JsonValues

  datatype FlowResult =
    | Success(output: Json)
    | Failed(code: int, message: string, data: Option<Json>)

  const INVALID_INPUT: int := 2
}
