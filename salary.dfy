/** The values a salary argument can take when the constructors of the vacancy
    classes receive it: Python does not check the annotation `int`, so the
    classes are written to cope with strings, `None` and anything else. */
module SalaryInputs {
  import opened JsonValues

  datatype SalaryInput =
    | Int(i: int)
    | Bool(b: bool)    // Python's bool is a subclass of int: True counts as 1
    | Str(s: string)
    | Null
    | Other            // lists, dicts and any other object

  /** The salary argument a JSON value becomes when it is passed on unchanged. */
  function FromJson(j: Json): SalaryInput
  {
    match j
    case JNull => Null
    case JBool(b) => Bool(b)
    case JInt(i) => Int(i)
    case JStr(s) => Str(s)
    case JArr(_) => Other
    case JObj(_) => Other
  }
}
