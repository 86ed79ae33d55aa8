/**
  * The error records a failed document validation produces: where in the
  * document the problem sits (`loc`) and what it is (`msg`).  Required
  * fields that are absent and validators that raise are the two kinds the
  * workflow and role documents use.
  */
module Schema {

  datatype SchemaError = SchemaError(loc: seq<string>, msg: string)

  /** The message recorded for a required field that is absent. */
  const FieldRequired: string := "Field required"

  /** The message recorded when a model validator raises `ValueError(message)`. */
  function ValueError(message: string): string {
    "Value error, " + message
  }

  /** An error for the required field `path` that the document leaves out. */
  function Missing(path: seq<string>): SchemaError {
    SchemaError(path, FieldRequired)
  }
}
