/** A single validation finding: a short code such as `E113` and a human-readable text. */
module ValidationErrors {

  datatype ValidationError = ValidationError(code: string, text: string)
}
