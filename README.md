# docstring-validator, modelled in Dafny

`docstring-validator` checks the docstrings of test functions against a fixed
layout:
- one or more free-text descriptions;
- a numbered `Test steps:` list;
- dashed `Pass criteria:` and `Fail criteria:` lists;
- an optional `Reference:` list, which may also be written on one line as
  `Reference: A, B`.

Sections are separated by blank lines. This project models the core of the tool,
which turns a docstring into sections and validates it:

- **Parsing a docstring** (`docstring_model.dfy`, module `DocstringModel`).
  The text is cut at every `\n\n` into raw sections. Each raw section is cut into
  lines, and each line that is non-empty as written is stripped. Each raw section
  then becomes a section value.
- **Validating a docstring** (`DocstringModel`). A docstring without sections gives
  `E300`. Otherwise validation reports the occurrence findings of the schema,
  followed by each section's own findings.
- **Section values** (`chunk_types.dfy`, `chunks.dfy`, modules `ChunkTypes` and
  `Chunks`). A section is a `Chunk(kind, content)`. Its kind comes from the header
  before the first colon of its first line. Its validator comes from the kind's
  content type, through the per-kind table. A one-line References section is
  expanded into a header and one `- ` line per comma-separated entry. `E100` is
  reported for a section without content.
- **Validators** (`validators.dfy`, module `Validators`):
  - the ordered-list validator (`E111`, `E112`, `E113`);
  - the unordered-list validator (`E121`, `E122`, `E123`);
  - the paragraph validator, which accepts everything;
  - the merging of wrapped item lines;
  - the first-element search;
  - the occurrence validator of the schema (`E211`, `E212`, `E213`), with its
    counter.
- **Findings** (`validation_error.dfy`): a code and a text.
- **Python text built-ins** (`text.dfy`): `str.isspace`, `strip`, `startswith`,
  `find`, `split`, `join`, `f"{n}"`, and the digit run that `\d+` matches.
  `seqs.dfy` holds sequence facts and `wrappers.dfy` holds `Option`.
- **Well-formed docstrings** (`well_formed.dfy`, module `WellFormed`). A docstring
  written with descriptions, a numbered list, two dashed lists, an optional dashed
  reference list, and a blank line between sections is parsed back into exactly
  those sections, and it passes validation (`WellFormedDocstringAccepted`).
- **The behaviours the project's tests exercise** (`scenarios.dfy`, module
  `Scenarios`), stated for every input of the tested shape.

Where the code and its documentation disagree, the model follows the code:

- **The item pattern when merging.** A line opens a new item when it matches
  `^\s*\d+\. ` or `^\s*- `. That is leading whitespace, then digits and a dot, or a
  dash, and then one literal space. A dash followed by a tab opens no item.
- **The first-element check.** It is an unanchored `re.search` for `1. ` with an
  unescaped dot: a `1`, then any character except a line feed, then a space,
  anywhere in the element. So `11, ` passes, and so does `x 1a y`. For unordered
  lists the check is a `-` anywhere in the element. The check runs before merging,
  on the first line alone. So a first item whose number stands on a line of its
  own (`1.`, then `First step`) reports `E112`, while `1. First step` passes
  (`FirstItemWrappedAfterNumber`). An item can be wrapped over more lines only
  after the first item line (`WrappedOrderedListStaysValid`).
- **Blank lines.** Lines are separated only at `"\n\n"`. A line that is empty as
  written is dropped, but a line of blanks survives as `""`. Four line feeds in a
  row, or three at the end of the text, leave an empty raw section, which has no
  first line (`TwoBlankLinesNotParsable`). Three line feeds in a row inside the text
  do not: the third begins the next raw section with an empty line, which is
  dropped (`ThreeLineFeedsSeparate`).
- **An empty docstring.** The text `""` also gives a raw section without lines, so
  the source fails instead of reporting `E300` (`EmptyTextNotParsable`). `E300` is
  reported only for a missing docstring (`E300ExactlyWithoutDocstring`).
- **Crashes.** Where the source crashes, the model has a precondition instead:
  - an empty raw section reaches `chunk[0]`;
  - a one-line References section must split at exactly one colon.

  These are `Constructible` for one section and `Parsable` for a whole docstring.
- **Validator results.** The validators take the lines and the section name, and
  return one finding or none. The project's tests call them with one argument and
  expect a list. The model follows the functions' signatures and results.
- **Whitespace and digits.** Whitespace is what `str.isspace` and `\s` accept on
  ASCII: characters 9 to 13 and 28 to 32. Digits are `0` to `9`.

## Model

| member | source | states |
|---|---|---|
| Validators.OrderedMarkerIsPattern | docstring_validator/validators.py:65-66 | a line opens an ordered item exactly when it is in the language of `^\s*\d+\. `: whitespace, at least one digit, then `. ` |
| Validators.UnorderedMarkerIsPattern | docstring_validator/validators.py:65-66 | a line opens an unordered item exactly when it is in the language of `^\s*- ` |
| Validators.MergeMultilineElements | docstring_validator/validators.py:64-80 | no result exactly when the first element fails the first-element search; otherwise the items merged from the first element and the lines after it |
| Validators.MergeItems | docstring_validator/validators.py:73-79 | there is one item more than there are item-opening lines after the first element |
| Validators.MergeOpening | docstring_validator/validators.py:76-77 | a line that opens an item is appended as a new last item, and the earlier items are unchanged |
| Validators.MergeContinuation | docstring_validator/validators.py:78-79 | a line that opens no item is joined to the last item after one space, and the earlier items are unchanged |
| Validators.MergeOpenings | docstring_validator/validators.py:75-79 | lines that all open items are appended to the items unchanged |
| Validators.MergeItemsStartWithOpeningLines | docstring_validator/validators.py:73-79 | item `j` starts with the `j`-th opening line, counting the first element as the opening line of item 0 |
| Validators.MergeItemsAllStarts | docstring_validator/validators.py:73-79 | when every line opens an item, the items are the first element followed by the lines |
| Validators.ContinuationKeepsItems | docstring_validator/validators.py:78-79 | lines that open no item leave the number of items unchanged, and each stripped item keeps its stripped old text as a prefix |
| Validators.ItemStartsAreStripped | docstring_validator/validators.py:75-77 | from stripped lines, the item-opening lines are stripped and open items |
| Validators.CheckNumbering | docstring_validator/validators.py:31-35 | the loop passes exactly when every item `i` (1-based), stripped, starts with `i. ` |
| Validators.CheckDashes | docstring_validator/validators.py:52-56 | the loop passes exactly when every item, stripped, starts with `- ` |
| Validators.ValidateOrderedList | docstring_validator/validators.py:19-35 | `E111` without an item line; `E112` when the first element fails the search; `E113` when some merged item is wrongly numbered; no finding otherwise |
| Validators.ValidateUnorderedList | docstring_validator/validators.py:38-56 | `E121` without an item line; `E122` when the first element has no `-`; `E123` when some merged item does not start with `- `; no finding otherwise |
| Validators.ValidateParagraph | docstring_validator/validators.py:59-61 | a paragraph never has a finding |
| Validators.MergeGlued | docstring_validator/validators.py:78-79 | a run of lines that open no item is joined to the last item, each line after one space, and the earlier items are unchanged |
| Validators.MergeFromStart | docstring_validator/validators.py:75-79 | from a line that opens an item on, the items are those of a list of their own that starts with that line |
| Validators.ContinuationRun | docstring_validator/validators.py:75-79 | the number of lines before the first one that opens an item: none of them opens one, and the line after them does |
| Validators.MergeAtRun | docstring_validator/validators.py:75-79 | the items of `a + rest` are those of `a`, the last wrapped over the lines of `rest` before its first item line, followed by the items that line opens |
| Validators.InsertedContinuations | docstring_validator/validators.py:75-79 | lines that open no item, inserted after the first `p` lines, keep the number of items; the item those lines end in gets the inserted text, joined with spaces, in front of the lines that already continued it; every other item is unchanged |
| Validators.MergedItemNotBlank | docstring_validator/validators.py:69-79 | when the first element passes the first-element search, no merged item is all whitespace |
| Validators.InsertedContinuationsKeepPrefix | docstring_validator/validators.py:32 | after such an insertion, an item whose stripped text started with a prefix like `3. ` or `- ` still does |
| Validators.InsertedKeepsNumbered | docstring_validator/validators.py:31-35 | such an insertion keeps every merged item correctly numbered |
| Validators.InsertedKeepsDashed | docstring_validator/validators.py:52-56 | such an insertion keeps every merged item dashed |
| Validators.WrappedOrderedListStaysValid | docstring_validator/validators.py:24-35 | inserting lines that open no item anywhere after the first item line of an accepted ordered list keeps it accepted |
| Validators.WrappedUnorderedListStaysValid | docstring_validator/validators.py:45-56 | inserting lines that open no item anywhere after the first item line of an accepted unordered list keeps it accepted |
| Validators.NumberedLineOpensItem | docstring_validator/validators.py:32 | a stripped line starting with `n. ` opens an ordered item, and `strip` leaves it unchanged |
| Validators.NumberedListAccepted | docstring_validator/validators.py:19-35 | a header followed by stripped lines, line `k` starting with `k. `, has no finding |
| Validators.DashedListAccepted | docstring_validator/validators.py:38-56 | a header followed by stripped lines that all start with `- ` has no finding |
| Validators.DashErrorOnlyOnFirstItem | docstring_validator/validators.py:45-56 | for stripped lines whose first element holds a `-`, every merged item after the first passes the dash check, so `E123` is reported exactly when the first item fails it |
| Validators.UnstrippedLaterItemFailsDash | docstring_validator/validators.py:52-56 | without stripping, a later line `- ` opens an item but strips to `-`, so the list gets `E123` on an item other than the first |
| Validators.CountAppend | docstring_validator/validators.py:124-128 | the count of a kind over two sequences of sections is the sum of the two counts |
| Validators.CountOfUniform | docstring_validator/validators.py:124-128 | when all sections have one kind, that kind counts all of them and any other kind counts none |
| Validators.CountsAddUp | docstring_validator/validators.py:124-128 | the counts of the five kinds add up to the number of sections |
| Validators.CountChunkTypes | docstring_validator/validators.py:124-128 | the counter has exactly the schema's kinds as keys, each mapped to the number of sections of that kind |
| Validators.OccurrenceErrorsSnoc | docstring_validator/validators.py:93-119 | one more schema entry appends its own finding, if any, to the findings of the entries before it |
| Validators.ValidateChunkOccurrences | docstring_validator/validators.py:88-121 | the findings are those of the schema entries, in schema order |
| Validators.OccurrenceErrorsBounded | docstring_validator/validators.py:88-121 | there is at most one finding per schema entry, each with code `E211`, `E212` or `E213` |
| Validators.OccurrenceErrorCases | docstring_validator/validators.py:99-119 | `E211` exactly when the kind is required and absent; never `E212` without a maximum; never `E213` when the minimum is at most one |
| Validators.OccurrenceErrorNone | docstring_validator/validators.py:99-119 | an entry has no finding exactly when its count lies within its range |
| Validators.OccurrenceErrorsEmpty | docstring_validator/validators.py:88-121 | there are no occurrence findings exactly when every schema kind's count lies within its range |
| Chunks.HeaderSpec | docstring_validator/chunks.py:103 | the header is the text before the first colon of the line, and it holds no colon |
| Chunks.HeaderOfLabelledLine | docstring_validator/chunks.py:103 | the header of `h:rest` is `h` when `h` has no colon |
| Chunks.HeaderOfPlainLine | docstring_validator/chunks.py:103 | a line without a colon is its own header |
| Chunks.IdentifyChunkSpec | docstring_validator/chunks.py:93-104 | each list kind is chosen by exactly one exact header and every other header gives Description; only the first line matters |
| Chunks.CapitalisedHeaderIsDescription | docstring_validator/chunks.py:96-104 | headers are case sensitive: `Test Steps:` opens a description |
| Chunks.ChunkValidators | docstring_validator/chunks.py:107-149 | each kind's validator list is the one validator of its content type: paragraph, ordered list or unordered list |
| Chunks.ParseReference | docstring_validator/chunks.py:154-160 | a References section with other than one line keeps its lines |
| Chunks.ReferenceShorthandShape | docstring_validator/chunks.py:154-160 | a one-line section becomes its header, then a `- ` line per entry; it has two lines more than there are commas after the colon; the entries joined with commas give back the text after the colon |
| Chunks.BulletDashed | docstring_validator/chunks.py:158 | a generated line `- <entry stripped>` passes the dash check exactly when the entry is not blank, and it always opens an item |
| Chunks.BulletsAreItems | docstring_validator/chunks.py:158 | the generated lines pass the first-element search and each opens an item, so merging leaves them as they are |
| Chunks.BulletsDashed | docstring_validator/chunks.py:158 | all generated lines pass the dash check exactly when no entry is blank |
| Chunks.ShorthandItems | docstring_validator/chunks.py:154-160 | the items the unordered-list validator sees in an expanded shorthand are exactly its generated lines |
| Chunks.ShorthandReferenceValidity | docstring_validator/chunks.py:154-160 | an expanded shorthand has no unordered-list finding exactly when no entry is blank, and otherwise its finding is `E123` |
| Chunks.MakeChunk | docstring_validator/chunks.py:66-73 | the section's kind is the identified kind and it has content; the content is the raw lines, except for a one-line References section |
| Chunks.RunValidator | docstring_validator/chunks.py:88 | runs the section's validator on its lines and its section name |
| Chunks.ValidateChunk | docstring_validator/chunks.py:75-91 | `E100` for a section without content; otherwise the findings of the kind's validators, in order |
| Chunks.ChunkErrorsSpec | docstring_validator/chunks.py:75-91 | at most one finding; `E100` exactly for a section without content; otherwise the finding, if any, of the validator for its content type |
| Chunks.SingleValidatorErrors | docstring_validator/chunks.py:86-91 | running a list of one validator gives that validator's finding if there is one, and nothing otherwise |
| Chunks.ListErrorCodes | docstring_validator/validators.py:19-56 | a list validator reports only codes `E111` to `E113` and `E121` to `E123` |
| Chunks.MadeChunkHasNoE100 | docstring_validator/chunks.py:72-84 | a section built from a raw section has at most one finding, and never `E100` |
| Chunks.ShorthandReferenceChunkValid | docstring_validator/chunks.py:144-160 | a one-line References section with a single colon and no blank entry has no finding once built |
| DocstringModel.SchemaOccurrenceErrors | docstring_validator/docstring_model.py:18-24 | the occurrence findings of the schema are those of Description, Test Steps, Pass Criteria, Fail Criteria and References, in that order |
| DocstringModel.SchemaCoversAllKinds | docstring_validator/docstring_model.py:18-24 | every kind has a counter in the schema, so counting parsed sections never fails |
| DocstringModel.SchemaNeverBelowMinimum | docstring_validator/docstring_model.py:18-24 | no minimum in the schema exceeds one, so `E213` is never reported |
| DocstringModel.SchemaRespectedExactly | docstring_validator/docstring_model.py:18-24 | the schema's ranges say: one or more descriptions, one each of the three lists, at most one reference list |
| DocstringModel.CleanLinesStripped | docstring_validator/docstring_model.py:69 | every kept line is stripped |
| DocstringModel.CleanLinesAvoid | docstring_validator/docstring_model.py:69 | a character that no input line holds is in no kept line |
| DocstringModel.CleanLinesOfCleanLines | docstring_validator/docstring_model.py:69 | non-empty stripped lines are kept unchanged |
| DocstringModel.RawChunksSpec | docstring_validator/docstring_model.py:63-70 | there is always at least one raw section, and every kept line is stripped and holds no line feed |
| DocstringModel.NoBlankLineIsOneChunk | docstring_validator/docstring_model.py:63-70 | a text without `\n\n` is a single raw section |
| DocstringModel.SplitRendered | docstring_validator/docstring_model.py:66 | splitting pieces joined with `\n\n` at `\n\n` gives the pieces back when none holds a blank line |
| DocstringModel.PieceLines | docstring_validator/docstring_model.py:69 | splitting non-blank stripped lines joined with `\n`, then cleaning them, gives the lines back |
| DocstringModel.RawChunksOfRender | docstring_validator/docstring_model.py:63-70 | raw splitting undoes rendering: sections of non-blank stripped lines, joined with `\n` and with a blank line between sections, come back as they were |
| DocstringModel.AllChunkErrorsSpec | docstring_validator/docstring_model.py:57-60 | each section adds at most one finding, with a code from `E100` or the list validators' codes |
| DocstringModel.ChunkErrorShows | docstring_validator/docstring_model.py:57-60 | a section with a finding makes the combined findings non-empty |
| DocstringModel.NoChunkErrors | docstring_validator/docstring_model.py:57-60 | sections without findings give no findings |
| DocstringModel.AllChunkErrorsEmpty | docstring_validator/docstring_model.py:57-60 | there are no section findings exactly when every section has none |
| DocstringModel.DocstringErrorsSpec | docstring_validator/docstring_model.py:40-61 | without sections the findings are exactly `E300`; otherwise there are at most as many findings as schema entries plus sections, and none is `E300` or `E213` |
| DocstringModel.E300ExactlyWithoutDocstring | docstring_validator/docstring_model.py:26-61 | `E300` is reported for a missing docstring and never for a docstring text |
| DocstringModel.DocstringAcceptedExactly | docstring_validator/docstring_model.py:40-61 | a docstring has no finding exactly when it has sections, their kinds respect the schema, and every section passes its own validator |
| DocstringModel.Docstring.constructor | docstring_validator/docstring_model.py:26-33 | keeps the text; no sections without a docstring, otherwise one section per raw section, in order |
| DocstringModel.Docstring.GetRawChunks | docstring_validator/docstring_model.py:63-70 | the raw sections are the cleaned lines of each `\n\n`-separated piece, in order |
| DocstringModel.Docstring.ParseRawChunks | docstring_validator/docstring_model.py:72-79 | one section per raw section, in order, each built by the section factory |
| DocstringModel.Docstring.Validate | docstring_validator/docstring_model.py:40-61 | `E300` alone without sections; otherwise the occurrence findings in schema order, then each section's findings in section order |
| WellFormed.DescriptionSectionClean | docstring_validator/chunks.py:107-117 | clean lines whose header names no list become a description holding those lines, with no finding |
| WellFormed.TitleKind | docstring_validator/chunks.py:93-104 | a first line `<title>:` selects the kind its title names |
| WellFormed.StepsSectionClean | docstring_validator/chunks.py:120-125 | a clean `Test steps:` section numbered `1.`, `2.`, … becomes test steps holding its lines, with no finding |
| WellFormed.DashedSectionClean | docstring_validator/chunks.py:128-149 | a clean dashed `Pass criteria:`, `Fail criteria:` or `Reference:` section becomes that kind holding its lines, with no finding |
| WellFormed.LayoutChunks | docstring_validator/docstring_model.py:72-79 | every written section of a well-formed docstring becomes a section of the expected kind, holding its lines, with no finding |
| WellFormed.LayoutRespectsSchema | docstring_validator/docstring_model.py:18-24 | sections with the kinds of a well-formed layout respect the schema |
| WellFormed.ParsedLayout | tests/test_docstring_model.py:22-36 | a well-formed docstring splits back into its written sections and parses into one section per written section, of the expected kind, each without a finding |
| WellFormed.WellFormedDocstringAccepted | tests/test_validators.py:94-98 | a well-formed docstring parses into the expected sections, and validation reports nothing |
| Scenarios.MergeWrapped | docstring_validator/validators.py:75-79 | an item line followed by a line that opens no item is one item, joined with a space |
| Scenarios.MergeWithSecondWrapped | tests/test_validators.py:7-17 | five item lines after the first, the second of which opens no item, merge into five items with the wrapped line joined to the second |
| Scenarios.FiveItemsSecondWrapped | tests/test_validators.py:7-17 | a correctly numbered list whose second item wraps onto a line that opens no item has no finding |
| Scenarios.SecondItemMisnumbered | tests/test_validators.py:20-28 | a list whose second item opens with a number not starting with `2` (as `34.`) reports `E113` |
| Scenarios.TwoItemsFirstWrapped | tests/test_validators.py:33-40 | two dashed items, the first wrapped onto a line that opens no item, have no finding |
| Scenarios.OrderedListWithoutItems | tests/test_validators.py:29 | a `Test steps:` header alone reports `E111` |
| Scenarios.OrderedListWithoutNumber | tests/test_validators.py:30 | the first item `Not starting with number` fails the `1. ` search and reports `E112` |
| Scenarios.UnorderedListWithoutItems | tests/test_validators.py:42 | a `Pass criteria:` header alone reports `E121` |
| Scenarios.UnorderedListWithoutDash | tests/test_validators.py:42 | a first item without a dash reports `E122` |
| Scenarios.FirstItemWrappedAfterNumber | docstring_validator/validators.py:83-85 | the first item `1.` wrapped onto `First step` reports `E112`, while `1. First step` has no finding |
| Scenarios.ShorthandTwoEntries | docstring_validator/chunks.py:154-160 | `h:a,b` with no other colon or comma has a single colon and expands to `h`, `- a'`, `- b'`, where `a'` and `b'` are the stripped entries |
| Scenarios.ExplicitReferenceValid | tests/test_chunks.py:9 | the explicit list `Reference:`, `- a`, `- b` builds a References section holding its three lines, with no finding |
| Scenarios.ShorthandReferenceValid | tests/test_chunks.py:8 | the shorthand `Reference:a,b` builds a References section of the header and two generated lines, with no finding |
| Scenarios.ShorthandMatchesExplicitList | tests/test_chunks.py:26-29 | the shorthand and the explicit list both give References sections of three lines with the same items, and neither has a finding |
| Scenarios.SingleLineText | docstring_validator/docstring_model.py:63-70 | a non-empty stripped text without line feeds is one raw section of one line |
| Scenarios.EmptyTextNotParsable | docstring_validator/docstring_model.py:63-70 | the empty text gives one raw section without lines, which cannot be built |
| Scenarios.TwoBlankLinesNotParsable | docstring_validator/docstring_model.py:66 | a line followed by four line feeds in a row leaves an empty raw section after it, so the docstring cannot be parsed |
| Scenarios.ThreeLineFeedsSeparate | docstring_validator/docstring_model.py:66-69 | two lines separated by three line feeds give two raw sections of one stripped line each |
| Scenarios.DescriptionsOnlyOccurrences | docstring_validator/validators.py:99-101 | with only descriptions, the occurrence findings are `E211` for Test Steps, Pass Criteria and Fail Criteria, in that order |
| Scenarios.DescriptionsOnly | docstring_validator/docstring_model.py:40-61 | sections that are all descriptions with content produce exactly those three `E211` findings |
| Scenarios.OneLiner | tests/test_docstring_model.py:15-19 | the one-line docstring is one raw section of one line; it parses into one description and misses the three list sections |
| Text.LStripSpec | docstring_validator/validators.py:32 | `lstrip` drops exactly the leading whitespace |
| Text.StripSpec | docstring_validator/validators.py:32 | `strip` is no longer than its input, its result is stripped, and it is empty exactly when the input is all whitespace |
| Text.StrippedIsFixed | docstring_validator/validators.py:32 | `strip` leaves a stripped text unchanged |
| Text.StripIsStripped | docstring_validator/docstring_model.py:69 | `strip` is idempotent |
| Text.StripAppend | docstring_validator/validators.py:79 | an item extended with more text, once stripped, starts with the stripped item |
| Text.StripInsertKeepsPrefix | docstring_validator/validators.py:79 | text that starts with a space, put inside a non-blank item before text that also starts with a space, keeps any prefix of the stripped item whose only space is its last character |
| Text.FindSpec | docstring_validator/docstring_model.py:66 | `find` returns the first position where the separator occurs, or the length when there is none |
| Text.SplitUnfold | docstring_validator/docstring_model.py:66 | `split` cuts at the first occurrence of the separator and goes on with the rest |
| Text.JoinSplit | docstring_validator/chunks.py:157 | joining the pieces of a split with the separator gives back the text |
| Text.SplitCharPieces | docstring_validator/chunks.py:156 | splitting at a character gives one piece more than it has occurrences, and no piece holds it |
| Text.SplitJoinChar | docstring_validator/docstring_model.py:69 | splitting lines joined with a character that none of them holds gives the lines back |
| Text.NatToStringDigits | docstring_validator/validators.py:32 | `f"{n}"` is a non-empty run of digits, with a leading `0` only for zero |
| Text.DecimalValueOfNatToString | docstring_validator/validators.py:32 | reading `f"{n}"` back as a decimal number gives `n` |
| Text.NatToStringInjective | docstring_validator/validators.py:32 | different numbers print differently |
| Text.LeadingDigitsSpec | docstring_validator/validators.py:65 | the digit run that `\d+` consumes is maximal: all digits, followed by the end or a non-digit |

## Left out

- `Docstring.parse_docstring` (docstring_model.py:35-38) only calls the constructor. It is covered by `DocstringModel.Docstring.constructor`.
- `ChunkTypes.get_types` (chunks.py:32-41) lists the five kinds, as the datatype `ChunkKind` does. Nothing in the core calls it.
- The `validators is None` branch of `Chunk.validate` (chunks.py:81-82) is not modelled. No section variant has a `None` validator list, so the branch cannot be reached.
- The class hierarchy and `__new__`'s swap of the class are modelled as one tagged datatype and the factory `MakeChunk`. The `type_map` table becomes the kind stored in the value.
- Building a section variant directly with any list is not modelled. Only the `None` content that gives `E100` is kept, as `content == None`.
- The docstring validator list (docstring_model.py:17) holds one validator. Validation calls that validator directly instead of looping over a list.
- `float("inf")`, the Description maximum, is the bound `Unbounded`, and `actual > max` is `Exceeds`. Floating-point numbers are not modelled.
- Crashes are not modelled as behaviour. An empty raw section, a one-line References section without exactly one colon, and a section kind missing from the counter are preconditions (`Constructible`, `Parsable`) instead.
- Strings are sequences of characters. `isspace`, `\s` and `\d` are modelled on ASCII only, and Unicode whitespace and digits are not.
- Python's aliasing is not modelled: `_merge_multiline_elements` pops the first element from a fresh slice, and the model works on values.
- The pattern matching is stated only for the fixed patterns `^\s*\d+\. `, `^\s*- `, `1. ` and `-`. No general regular-expression engine is modelled.
- The literal docstring `VALID_DOCSTRING` (tests/static_data.py:3-23) is not evaluated as a literal. Its shape is covered for every input by `WellFormed.WellFormedDocstringAccepted` and `WellFormed.ParsedLayout`.
- The tests' literal lists are likewise stated for every input of their shape: `Scenarios.FiveItemsSecondWrapped`, `Scenarios.SecondItemMisnumbered`, `Scenarios.TwoItemsFirstWrapped`, `Scenarios.ShorthandTwoEntries` and `Scenarios.ShorthandMatchesExplicitList`.
- The rest of the repository is not part of this model: the entry point and command line, the source-code parser, the git diff helpers, the reporter, and the tests of those.
- Scenarios.ShorthandMatchesExplicitList: stated for two entries with no colon or comma and no blank entry. Its explicit list is built from the stripped entries of the shorthand, so it is not the literal list of tests/test_chunks.py:9, whose first entry keeps its comma (`- BUG2137,`). That literal list is covered by `Scenarios.ExplicitReferenceValid`, with the entry `BUG2137,`. `Chunks.ReferenceShorthandShape` and `Chunks.ShorthandReferenceValidity` state the general shape and validity.
- Validators.MergeItems: its own contract gives only the number of items. The content of the items is stated by `MergeOpening`, `MergeContinuation`, `MergeItemsStartWithOpeningLines`, `ContinuationKeepsItems`, `MergeGlued`, `MergeFromStart` and `InsertedContinuations`.
