/**
  The closed enumerations of docstring sections and of the data a section holds,
  and the section value itself.
*/
module ChunkTypes {
  import opened Wrappers

  /** The five kinds of docstring section; `Value()` is the name used in error texts. */
  datatype ChunkKind = Description | TestSteps | PassCriteria | FailCriteria | References
  {
    function Value(): string {
      match this
      case Description => "Description"
      case TestSteps => "Test Steps"
      case PassCriteria => "Pass Criteria"
      case FailCriteria => "Fail Criteria"
      case References => "References"
    }
  }

  /** The shape of the data a section holds; it decides which validator applies. */
  datatype ContentType = OrderedList | UnorderedList | Paragraph

  /** One section of a docstring: its kind and its lines (header first). The lines are
      `None` only when a section variant is built directly from `None`. */
  datatype Chunk = Chunk(kind: ChunkKind, content: Option<seq<string>>)
}
