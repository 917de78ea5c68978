/**
  Docstring sections: how a raw section (its lines, header first) is classified by its
  header, how it is turned into a section value (the References shorthand
  `Reference: a, b` is expanded to a list), and how a section validates itself with
  the validators its kind prescribes.
*/
module Chunks {
  import opened Wrappers
  import opened Seqs
  import opened Text
  import opened ValidationErrors
  import opened ChunkTypes
  import opened Validators

  // ---------------------------------------------------------------------------
  // Classification

  /** The text before the first `:` of a line, the whole line when it has none:
      `line.split(":")[0]`. */
  function Header(line: string): string {
    Split(line, ":")[0]
  }

  lemma HeaderSpec(line: string)
    ensures var i := IndexOf(line, ':');
            Header(line) == line[..i] && ':' !in Header(line) && (i < |line| ==> line[i] == ':')
  {
    SplitCharCut(line, ':');
    IndexOfSpec(line, ':');
  }

  /** A line that begins with `h:` (and `h` has no colon) has header `h`. */
  lemma HeaderOfLabelledLine(h: string, rest: string)
    requires ':' !in h
    ensures Header(h + ":" + rest) == h
  {
    SplitCharFirst(h, rest, ':');
  }

  /** A line without a colon is its own header. */
  lemma HeaderOfPlainLine(line: string)
    requires ':' !in line
    ensures Header(line) == line
  {
    SplitCharAbsent(line, ':');
  }

  /** The case-sensitive header table of `_identify_chunk`. */
  const ChunkHeaders: map<string, ChunkKind> :=
    map["Test steps" := TestSteps, "Pass criteria" := PassCriteria,
        "Fail criteria" := FailCriteria, "Reference" := References]

  /** `_identify_chunk`: the kind the first line's header names, `Description` for any
      other header. */
  function IdentifyChunk(chunk: seq<string>): ChunkKind
    requires |chunk| > 0
  {
    var header := Header(chunk[0]);
    if header in ChunkHeaders then ChunkHeaders[header] else Description
  }

  /** Each kind is chosen by exactly one exact header, and every other header, whatever
      its spelling or case, gives `Description`. Only the first line matters. */
  lemma IdentifyChunkSpec(chunk: seq<string>)
    requires |chunk| > 0
    ensures var h := Header(chunk[0]);
            var kind := IdentifyChunk(chunk);
            (kind == TestSteps <==> h == "Test steps") &&
            (kind == PassCriteria <==> h == "Pass criteria") &&
            (kind == FailCriteria <==> h == "Fail criteria") &&
            (kind == References <==> h == "Reference") &&
            (kind == Description <==> h !in {"Test steps", "Pass criteria", "Fail criteria", "Reference"})
    ensures forall other: seq<string> :: |other| > 0 && other[0] == chunk[0] ==> IdentifyChunk(other) == IdentifyChunk(chunk)
  {
  }

  /** The header is case sensitive: `Test Steps:` opens a description. */
  lemma CapitalisedHeaderIsDescription(rest: seq<string>)
    ensures IdentifyChunk(["Test Steps:"] + rest) == Description
  {
    HeaderOfLabelledLine("Test Steps", "");
    assert "Test Steps" + ":" + "" == "Test Steps:";
    assert (["Test Steps:"] + rest)[0] == "Test Steps:";
  }

  // ---------------------------------------------------------------------------
  // The per-kind table

  /** The kind of data each section variant holds. */
  function ContentTypeOf(kind: ChunkKind): ContentType {
    match kind
    case Description => Paragraph
    case TestSteps => OrderedList
    case PassCriteria | FailCriteria | References => UnorderedList
  }

  /** The validation functions a variant lists. */
  datatype ChunkValidator = ParagraphValidator | OrderedListValidator | UnorderedListValidator

  /** The validator that checks data of the given content type. */
  function ValidatorFor(t: ContentType): ChunkValidator {
    match t
    case Paragraph => ParagraphValidator
    case OrderedList => OrderedListValidator
    case UnorderedList => UnorderedListValidator
  }

  /** Each variant's validator list: one validator, the one for its content type. */
  function ChunkValidators(kind: ChunkKind): (vs: seq<ChunkValidator>)
    ensures vs == [ValidatorFor(ContentTypeOf(kind))]
  {
    match kind
    case Description => [ParagraphValidator]
    case TestSteps => [OrderedListValidator]
    case PassCriteria => [UnorderedListValidator]
    case FailCriteria => [UnorderedListValidator]
    case References => [UnorderedListValidator]
  }

  // ---------------------------------------------------------------------------
  // The References shorthand

  /** `[f"- {el.strip()}" for el in elements]`. */
  function Bullets(entries: seq<string>): (lines: seq<string>)
    ensures |lines| == |entries|
  {
    seq(|entries|, i requires 0 <= i < |entries| => "- " + Strip(entries[i]))
  }

  /** `ReferencesChunk._parse_reference`: a one-line section `Head: a, b` becomes
      `[Head, "- a", "- b"]`; any other section is kept as it is. The unpacking of
      `split(":")` into two names fails unless the single line has exactly one colon. */
  function ParseReference(content: seq<string>): (r: seq<string>)
    requires |content| == 1 ==> multiset(content[0])[':'] == 1
    ensures |content| != 1 ==> r == content
  {
    if |content| != 1 then content
    else
      var parts := Split(content[0], ":");
      SplitCharPieces(content[0], ':');
      [parts[0]] + Bullets(Split(parts[1], ","))
  }

  /** The entries of a one-line References section: its text after the colon cut at
      every comma. */
  function ReferenceEntries(line: string): string {
    var i := IndexOf(line, ':');
    if i < |line| then line[i + 1..] else ""
  }

  /** The shorthand gives the header, then one `- ` line per comma-separated entry: one
      more line than there are commas after the colon, and the entries joined back with
      commas are the text after the colon. */
  lemma ReferenceShorthandShape(line: string)
    requires multiset(line)[':'] == 1
    ensures var i := IndexOf(line, ':');
            var entries := Split(ReferenceEntries(line), ",");
            var r := ParseReference([line]);
            i < |line| &&
            r == [line[..i]] + Bullets(entries) &&
            |r| == multiset(ReferenceEntries(line))[','] + 2 &&
            Join(entries, ",") == ReferenceEntries(line) &&
            forall j :: 1 <= j < |r| ==> StartsWith(r[j], "- ")
  {
    var i := IndexOf(line, ':');
    SplitCharPieces(line, ':');
    SplitCharCut(line, ':');
    IndexOfSpec(line, ':');
    var rest := ReferenceEntries(line);
    SplitCharPieces(rest, ',');
    JoinSplit(rest, ",");
    var r := ParseReference([line]);
    assert r == [line[..i]] + Bullets(Split(rest, ","));
    forall j | 1 <= j < |r| ensures StartsWith(r[j], "- ") {
      ConsIndex(line[..i], Bullets(Split(rest, ",")), j);
      var b := Bullets(Split(rest, ","))[j - 1];
      AppendParts("- ", b[2..]);
    }
  }

  /** A generated line passes the dash check exactly when its entry is not blank: a
      blank entry gives `- `, which strips to `-`. */
  lemma BulletDashed(e: string)
    ensures Dashed("- " + Strip(e)) <==> !AllSpace(e)
    ensures IsUnorderedMarker("- " + Strip(e)) && '-' in "- " + Strip(e)
  {
    var x := Strip(e);
    var line := "- " + x;
    StripSpec(e);
    assert line[0] == '-';
    LStripExact(line, 0);
    TakeAll(line);
    AppendParts("- ", x);
    if x == [] {
      assert line == "- ";
      TrailingSpaceExact(line, 1);
      assert Strip(line) == "-";
    } else {
      assert line[|line| - 1] == x[|x| - 1];
      StrippedIsFixed(line);
    }
  }

  /** The generated lines all open items, so merging leaves them as they are. */
  lemma BulletsAreItems(entries: seq<string>)
    requires entries != []
    ensures var b := Bullets(entries);
            FirstElementOk(b[0], Unordered) && MergeItems(b[0], b[1..], Unordered) == b
  {
    var b := Bullets(entries);
    BulletDashed(entries[0]);
    var lines := b[1..];
    forall k | 0 <= k < |lines| ensures IsItemStart(lines[k], Unordered) {
      BulletDashed(entries[k + 1]);
    }
    MergeItemsAllStarts(b[0], lines, Unordered);
    HeadTail(b);
  }

  lemma BulletsDashed(entries: seq<string>)
    ensures AllDashed(Bullets(entries)) <==> forall k :: 0 <= k < |entries| ==> !AllSpace(entries[k])
  {
    var b := Bullets(entries);
    forall k | 0 <= k < |entries| ensures Dashed(b[k]) <==> !AllSpace(entries[k]) {
      BulletDashed(entries[k]);
    }
  }

  /** The items the unordered-list validator sees in an expanded shorthand are its
      generated lines. */
  lemma ShorthandItems(line: string)
    requires multiset(line)[':'] == 1
    ensures var content := ParseReference([line]);
            var entries := Split(ReferenceEntries(line), ",");
            |content| >= 2 && FirstElementOk(content[1], Unordered) &&
            MergeItems(content[1], content[2..], Unordered) == Bullets(entries)
  {
    ReferenceShorthandShape(line);
    var i := IndexOf(line, ':');
    var entries := Split(ReferenceEntries(line), ",");
    var bullets := Bullets(entries);
    var content := ParseReference([line]);
    assert content == [line[..i]] + bullets;
    ConsIndex(line[..i], bullets, 1);
    ConsDrop(line[..i], bullets, 2);
    BulletsAreItems(entries);
  }

  /** An expanded shorthand validates as an unordered list with no error exactly when
      none of its entries is blank; a blank entry (`Reference:` alone, or `a, , b`)
      gives `E123`. */
  lemma ShorthandReferenceValidity(line: string, section: string)
    requires multiset(line)[':'] == 1
    ensures var entries := Split(ReferenceEntries(line), ",");
            var error := UnorderedListError(ParseReference([line]), section);
            (error == None <==> forall k :: 0 <= k < |entries| ==> !AllSpace(entries[k])) &&
            (error == None || error == Some(E123(section)))
  {
    ShorthandItems(line);
    BulletsDashed(Split(ReferenceEntries(line), ","));
  }

  // ---------------------------------------------------------------------------
  // Construction

  /** What `Chunk(content)` builds from a raw section: the variant `type_map` gives for
      the identified kind, holding the lines as they are, or expanded for References.
      The raw section has to have a first line, and a one-line References section a
      single colon. */
  predicate Constructible(raw: seq<string>) {
    |raw| > 0 && (IdentifyChunk(raw) == References && |raw| == 1 ==> multiset(raw[0])[':'] == 1)
  }

  function MakeChunk(raw: seq<string>): (chunk: Chunk)
    requires Constructible(raw)
    ensures chunk.kind == IdentifyChunk(raw) && chunk.content.Some?
    ensures chunk.kind != References ==> chunk.content.value == raw
    ensures chunk.kind == References && |raw| != 1 ==> chunk.content.value == raw
  {
    var kind := IdentifyChunk(raw);
    Chunk(kind, Some(if kind == References then ParseReference(raw) else raw))
  }

  // ---------------------------------------------------------------------------
  // Validation

  /** What one validator reports on a section's lines. */
  function ValidatorResult(v: ChunkValidator, content: seq<string>, section: string): Option<ValidationError> {
    match v
    case ParagraphValidator => ValidateParagraph(content, section)
    case OrderedListValidator => OrderedListError(content, section)
    case UnorderedListValidator => UnorderedListError(content, section)
  }

  /** The results of a list of validators, those that report something, in order. */
  function ValidatorErrors(vs: seq<ChunkValidator>, content: seq<string>, section: string): seq<ValidationError> {
    if vs == [] then []
    else ValidatorErrors(vs[..|vs| - 1], content, section) + ToSeq(ValidatorResult(vs[|vs| - 1], content, section))
  }

  function E100(section: string): ValidationError {
    ValidationError("E100", "No value for " + section)
  }

  /** The errors `Chunk.validate` reports: `E100` for a section without content,
      otherwise whatever its validators report. */
  function ChunkErrors(chunk: Chunk): seq<ValidationError> {
    if chunk.content.None? then [E100(chunk.kind.Value())]
    else ValidatorErrors(ChunkValidators(chunk.kind), chunk.content.value, chunk.kind.Value())
  }

  /** Runs one validator. */
  method RunValidator(v: ChunkValidator, content: seq<string>, section: string) returns (result: Option<ValidationError>)
    ensures result == ValidatorResult(v, content, section)
  {
    match v
    case ParagraphValidator =>
      result := ValidateParagraph(content, section);
    case OrderedListValidator =>
      result := ValidateOrderedList(content, section);
    case UnorderedListValidator =>
      result := ValidateUnorderedList(content, section);
  }

  /** `Chunk.validate`. */
  method ValidateChunk(chunk: Chunk) returns (errors: seq<ValidationError>)
    ensures errors == ChunkErrors(chunk)
  {
    var section := chunk.kind.Value();
    if chunk.content.None? {
      return [E100(section)];
    }
    var content := chunk.content.value;
    var vs := ChunkValidators(chunk.kind);
    errors := [];
    for i := 0 to |vs|
      invariant errors == ValidatorErrors(vs[..i], content, section)
    {
      TakePrefix(vs, i, i + 1);
      var result := RunValidator(vs[i], content, section);
      if result.Some? {
        errors := errors + [result.value];
      }
    }
    TakeAll(vs);
  }

  /** A section reports at most one error: `E100` exactly when it has no content, and
      otherwise the finding of the validator for its content type, if any. */
  lemma ChunkErrorsSpec(chunk: Chunk)
    ensures |ChunkErrors(chunk)| <= 1
    ensures chunk.content.None? <==> ChunkErrors(chunk) == [E100(chunk.kind.Value())]
    ensures chunk.content.Some? ==>
              ChunkErrors(chunk) == ToSeq(ValidatorResult(ValidatorFor(ContentTypeOf(chunk.kind)), chunk.content.value, chunk.kind.Value()))
  {
    if chunk.content.Some? {
      SingleValidatorErrors(ValidatorFor(ContentTypeOf(chunk.kind)), chunk.content.value, chunk.kind.Value());
      ListErrorCodes(ValidatorFor(ContentTypeOf(chunk.kind)), chunk.content.value, chunk.kind.Value());
    }
  }

  /** The findings of a section with one validator: one unfolding of
      `ValidatorErrors`, for the proofs about kinds with a single validator. */
  lemma SingleValidatorErrors(v: ChunkValidator, content: seq<string>, section: string)
    ensures ValidatorErrors([v], content, section) == ToSeq(ValidatorResult(v, content, section))
  {
    assert [v][..0] == [];
    AppendEmpty(ToSeq(ValidatorResult(v, content, section)));
  }

  /** The codes a chunk validator can report: the `E11x` band for ordered lists and the
      `E12x` band for unordered lists; none is `E100`. */
  lemma ListErrorCodes(v: ChunkValidator, content: seq<string>, section: string)
    ensures forall e :: ValidatorResult(v, content, section) == Some(e) ==>
              e.code in {"E111", "E112", "E113", "E121", "E122", "E123"}
  {
  }

  /** A constructed section has content, so it never reports `E100`. */
  lemma MadeChunkHasNoE100(raw: seq<string>)
    requires Constructible(raw)
    ensures var errors := ChunkErrors(MakeChunk(raw));
            |errors| <= 1 && forall k :: 0 <= k < |errors| ==> errors[k].code != "E100"
  {
    var chunk := MakeChunk(raw);
    ChunkErrorsSpec(chunk);
    ListErrorCodes(ValidatorFor(ContentTypeOf(chunk.kind)), chunk.content.value, chunk.kind.Value());
  }

  /** A one-line References section whose entries are all non-blank validates with no
      error once built. */
  lemma ShorthandReferenceChunkValid(line: string)
    requires IdentifyChunk([line]) == References && multiset(line)[':'] == 1
    requires forall k :: 0 <= k < |Split(ReferenceEntries(line), ",")| ==> !AllSpace(Split(ReferenceEntries(line), ",")[k])
    ensures ChunkErrors(MakeChunk([line])) == []
  {
    var chunk := MakeChunk([line]);
    var content := ParseReference([line]);
    assert chunk == Chunk(References, Some(content));
    ShorthandReferenceValidity(line, "References");
    assert UnorderedListError(content, "References") == None;
    assert ValidatorResult(UnorderedListValidator, content, References.Value()) == None;
    ChunkErrorsSpec(chunk);
  }
}
