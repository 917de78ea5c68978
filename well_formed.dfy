/**
  Well-formed docstrings: a docstring written as the tool expects it (descriptions,
  then a numbered `Test steps:` list, dashed `Pass criteria:` and `Fail criteria:`
  lists and an optional dashed `Reference:` list, separated by blank lines) is parsed
  back into exactly those sections and passes validation.
*/
module WellFormed {
  import opened Wrappers
  import opened Seqs
  import opened Text
  import opened ValidationErrors
  import opened ChunkTypes
  import opened Validators
  import opened Chunks
  import opened DocstringModel

  /** A list section: its title line `<title>:` and item lines, all clean. */
  predicate Titled(lines: seq<string>, title: string) {
    |lines| >= 2 && lines[0] == title + ":" && CleanChunk(lines)
  }

  /** A description: clean lines whose first line names no other section. */
  predicate DescriptionSection(lines: seq<string>) {
    CleanChunk(lines) && Header(lines[0]) !in ChunkHeaders
  }

  /** A list whose `k`-th item line starts with `k. `. */
  predicate NumberedSection(lines: seq<string>, title: string) {
    Titled(lines, title) && forall k :: 1 <= k < |lines| ==> StartsWith(lines[k], NatToString(k) + ". ")
  }

  /** A list whose item lines start with `- `. */
  predicate DashedSection(lines: seq<string>, title: string) {
    Titled(lines, title) && forall k :: 1 <= k < |lines| ==> StartsWith(lines[k], "- ")
  }

  /** A description section becomes a description holding its lines, with no finding. */
  lemma DescriptionSectionClean(lines: seq<string>)
    requires DescriptionSection(lines)
    ensures Constructible(lines) && MakeChunk(lines) == Chunk(Description, Some(lines))
    ensures ChunkErrors(MakeChunk(lines)) == []
  {
    SingleValidatorErrors(ParagraphValidator, lines, "Description");
  }

  /** The section a title line announces. */
  lemma TitleKind(lines: seq<string>, title: string)
    requires |lines| > 0 && lines[0] == title + ":" && title in ChunkHeaders
    ensures IdentifyChunk(lines) == ChunkHeaders[title]
  {
    assert ':' !in title by {
      assert title == "Test steps" || title == "Pass criteria" || title == "Fail criteria" || title == "Reference";
    }
    HeaderOfLabelledLine(title, "");
    AppendEmpty(title + ":");
  }

  /** A numbered `Test steps:` section becomes test steps holding its lines, with no
      finding. */
  lemma StepsSectionClean(lines: seq<string>)
    requires NumberedSection(lines, "Test steps")
    ensures Constructible(lines) && MakeChunk(lines) == Chunk(TestSteps, Some(lines))
    ensures ChunkErrors(MakeChunk(lines)) == []
  {
    TitleKind(lines, "Test steps");
    forall k | 1 <= k < |lines| ensures IsStripped(lines[k]) {
      assert CleanLine(lines[k]);
    }
    NumberedListAccepted(lines, "Test Steps");
    SingleValidatorErrors(OrderedListValidator, lines, "Test Steps");
  }

  /** A dashed section under one of the dashed-list titles becomes that section,
      holding its lines, with no finding. */
  lemma DashedSectionClean(lines: seq<string>, title: string)
    requires DashedSection(lines, title) && title in {"Pass criteria", "Fail criteria", "Reference"}
    ensures var kind := ChunkHeaders[title];
            Constructible(lines) && MakeChunk(lines) == Chunk(kind, Some(lines)) && ChunkErrors(MakeChunk(lines)) == []
  {
    var kind := ChunkHeaders[title];
    TitleKind(lines, title);
    assert ContentTypeOf(kind) == UnorderedList;
    forall k | 1 <= k < |lines| ensures IsStripped(lines[k]) {
      assert CleanLine(lines[k]);
    }
    DashedListAccepted(lines, kind.Value());
    SingleValidatorErrors(UnorderedListValidator, lines, kind.Value());
  }

  /** One or more descriptions, the three required lists, and at most one reference
      list. */
  predicate WellFormedSections(descs: seq<seq<string>>, steps: seq<string>, pass: seq<string>, fail: seq<string>, refs: seq<seq<string>>) {
    descs != [] && (forall i :: 0 <= i < |descs| ==> DescriptionSection(descs[i])) &&
    NumberedSection(steps, "Test steps") && DashedSection(pass, "Pass criteria") &&
    DashedSection(fail, "Fail criteria") &&
    |refs| <= 1 && forall i :: 0 <= i < |refs| ==> DashedSection(refs[i], "Reference")
  }

  /** The sections in the order they are written. */
  function Layout(descs: seq<seq<string>>, steps: seq<string>, pass: seq<string>, fail: seq<string>, refs: seq<seq<string>>): seq<seq<string>> {
    descs + [steps, pass, fail] + refs
  }

  /** The kinds the sections are expected to parse as, in the same order. */
  function LayoutKinds(descs: nat, refs: nat): seq<ChunkKind> {
    seq(descs, i => Description) + [TestSteps, PassCriteria, FailCriteria] + seq(refs, i => References)
  }

  /** A written section that parses as a section value of `kind` holding its lines,
      with no finding. */
  predicate SectionOk(section: seq<string>, kind: ChunkKind) {
    CleanChunk(section) && Constructible(section) &&
    MakeChunk(section) == Chunk(kind, Some(section)) && ChunkErrors(MakeChunk(section)) == []
  }

  /** Where index `i` of the layout falls: the section and the kind found there. */
  lemma LayoutIndex(descs: seq<seq<string>>, steps: seq<string>, pass: seq<string>, fail: seq<string>, refs: seq<seq<string>>, i: nat)
    requires i < |Layout(descs, steps, pass, fail, refs)|
    ensures var sections := Layout(descs, steps, pass, fail, refs);
            var kinds := LayoutKinds(|descs|, |refs|);
            var n := |descs|;
            |kinds| == |sections| &&
            (i < n ==> sections[i] == descs[i] && kinds[i] == Description) &&
            (i == n ==> sections[i] == steps && kinds[i] == TestSteps) &&
            (i == n + 1 ==> sections[i] == pass && kinds[i] == PassCriteria) &&
            (i == n + 2 ==> sections[i] == fail && kinds[i] == FailCriteria) &&
            (n + 3 <= i ==> sections[i] == refs[i - n - 3] && kinds[i] == References)
  {
  }

  /** A description of the layout parses as a clean description. */
  lemma LayoutDescriptionAt(descs: seq<seq<string>>, steps: seq<string>, pass: seq<string>, fail: seq<string>, refs: seq<seq<string>>, i: nat)
    requires WellFormedSections(descs, steps, pass, fail, refs)
    requires i < |descs|
    ensures SectionOk(Layout(descs, steps, pass, fail, refs)[i], LayoutKinds(|descs|, |refs|)[i])
  {
    LayoutIndex(descs, steps, pass, fail, refs, i);
    DescriptionSectionClean(descs[i]);
  }

  /** The three required lists of the layout parse as clean sections of their kinds. */
  lemma LayoutListAt(descs: seq<seq<string>>, steps: seq<string>, pass: seq<string>, fail: seq<string>, refs: seq<seq<string>>, i: nat)
    requires WellFormedSections(descs, steps, pass, fail, refs)
    requires |descs| <= i < |descs| + 3
    ensures SectionOk(Layout(descs, steps, pass, fail, refs)[i], LayoutKinds(|descs|, |refs|)[i])
  {
    LayoutIndex(descs, steps, pass, fail, refs, i);
    var n := |descs|;
    if i == n {
      StepsSectionClean(steps);
    } else if i == n + 1 {
      DashedSectionClean(pass, "Pass criteria");
    } else {
      DashedSectionClean(fail, "Fail criteria");
    }
  }

  /** A reference list of the layout parses as a clean reference section. */
  lemma LayoutReferenceAt(descs: seq<seq<string>>, steps: seq<string>, pass: seq<string>, fail: seq<string>, refs: seq<seq<string>>, i: nat)
    requires WellFormedSections(descs, steps, pass, fail, refs)
    requires |descs| + 3 <= i < |Layout(descs, steps, pass, fail, refs)|
    ensures SectionOk(Layout(descs, steps, pass, fail, refs)[i], LayoutKinds(|descs|, |refs|)[i])
  {
    LayoutIndex(descs, steps, pass, fail, refs, i);
    DashedSectionClean(refs[i - |descs| - 3], "Reference");
  }

  /** Every written section becomes a section value of the expected kind that holds its
      lines and has no finding. */
  lemma LayoutChunks(descs: seq<seq<string>>, steps: seq<string>, pass: seq<string>, fail: seq<string>, refs: seq<seq<string>>)
    requires WellFormedSections(descs, steps, pass, fail, refs)
    ensures var sections := Layout(descs, steps, pass, fail, refs);
            var kinds := LayoutKinds(|descs|, |refs|);
            |kinds| == |sections| &&
            forall i :: 0 <= i < |sections| ==>
              CleanChunk(sections[i]) && Constructible(sections[i]) &&
              MakeChunk(sections[i]) == Chunk(kinds[i], Some(sections[i])) && ChunkErrors(MakeChunk(sections[i])) == []
  {
    var sections := Layout(descs, steps, pass, fail, refs);
    var kinds := LayoutKinds(|descs|, |refs|);
    assert |kinds| == |sections|;
    forall i | 0 <= i < |sections|
      ensures SectionOk(sections[i], kinds[i])
    {
      if i < |descs| {
        LayoutDescriptionAt(descs, steps, pass, fail, refs, i);
      } else if i < |descs| + 3 {
        LayoutListAt(descs, steps, pass, fail, refs, i);
      } else {
        LayoutReferenceAt(descs, steps, pass, fail, refs, i);
      }
    }
  }

  /** Sections of the expected kinds respect the schema. */
  lemma LayoutRespectsSchema(chunks: seq<Chunk>, descs: nat, refs: nat)
    requires descs >= 1 && refs <= 1
    requires |chunks| == |LayoutKinds(descs, refs)|
    requires forall i :: 0 <= i < |chunks| ==> chunks[i].kind == LayoutKinds(descs, refs)[i]
    ensures SchemaRespected(chunks)
  {
    var a := chunks[..descs];
    var b := chunks[descs..descs + 3];
    var c := chunks[descs + 3..];
    assert chunks == a + b + c;
    assert forall i :: 0 <= i < |a| ==> a[i].kind == Description;
    assert forall i :: 0 <= i < |c| ==> c[i].kind == References;
    assert b[0].kind == TestSteps && b[1].kind == PassCriteria && b[2].kind == FailCriteria;
    forall kind: ChunkKind
      ensures Count(chunks, kind) == Count(a, kind) + Count(b, kind) + Count(c, kind)
    {
      CountAppend(a, b, kind);
      CountAppend(a + b, c, kind);
    }
    CountOfUniform(a, Description, References);
    CountOfUniform(a, Description, TestSteps);
    CountOfUniform(a, Description, PassCriteria);
    CountOfUniform(a, Description, FailCriteria);
    CountOfUniform(c, References, Description);
    CountOfUniform(c, References, TestSteps);
    CountOfUniform(c, References, PassCriteria);
    CountOfUniform(c, References, FailCriteria);
    ThreeCounts(b);
  }

  /** The counts of three sections of the three required list kinds. */
  lemma ThreeCounts(b: seq<Chunk>)
    requires |b| == 3 && b[0].kind == TestSteps && b[1].kind == PassCriteria && b[2].kind == FailCriteria
    ensures Count(b, Description) == 0 && Count(b, TestSteps) == 1 && Count(b, PassCriteria) == 1
    ensures Count(b, FailCriteria) == 1 && Count(b, References) == 0
  {
    var b2 := b[..2];
    var b1 := b2[..1];
    assert b1[..0] == [] && b1[0] == b[0] && b2[1] == b[1];
    forall kind: ChunkKind
      ensures Count(b, kind) == (if b[0].kind == kind then 1 else 0) + (if b[1].kind == kind then 1 else 0) +
                                (if b[2].kind == kind then 1 else 0)
    {
      assert Count(b1, kind) == (if b[0].kind == kind then 1 else 0);
      assert Count(b2, kind) == Count(b1, kind) + (if b[1].kind == kind then 1 else 0);
    }
  }

  /** The written sections come back as raw sections and parse into the expected
      section values, none with a finding. */
  lemma ParsedLayout(descs: seq<seq<string>>, steps: seq<string>, pass: seq<string>, fail: seq<string>, refs: seq<seq<string>>, e: string)
    requires WellFormedSections(descs, steps, pass, fail, refs) && (e == "" || e == "\n")
    ensures var sections := Layout(descs, steps, pass, fail, refs);
            var text := Render(sections) + e;
            var kinds := LayoutKinds(|descs|, |refs|);
            RawChunks(text) == sections && Parsable(Some(text)) &&
            |ParseDocstring(Some(text))| == |sections| == |kinds| &&
            forall i :: 0 <= i < |sections| ==>
              ParseDocstring(Some(text))[i] == Chunk(kinds[i], Some(sections[i])) &&
              ChunkErrors(ParseDocstring(Some(text))[i]) == []
  {
    var sections := Layout(descs, steps, pass, fail, refs);
    var text := Render(sections) + e;
    LayoutChunks(descs, steps, pass, fail, refs);
    RawChunksOfRender(sections, e);
    var chunks := ParseDocstring(Some(text));
    assert forall i :: 0 <= i < |chunks| ==> chunks[i] == MakeChunk(sections[i]);
  }

  /** A well-formed docstring, written with one line feed between lines and a blank
      line between sections (and perhaps a final line feed), parses into one section
      per written section, of the expected kind and holding its lines, and validation
      reports nothing. */
  lemma WellFormedDocstringAccepted(descs: seq<seq<string>>, steps: seq<string>, pass: seq<string>, fail: seq<string>, refs: seq<seq<string>>, e: string)
    requires WellFormedSections(descs, steps, pass, fail, refs) && (e == "" || e == "\n")
    ensures var sections := Layout(descs, steps, pass, fail, refs);
            var text := Render(sections) + e;
            var kinds := LayoutKinds(|descs|, |refs|);
            RawChunks(text) == sections && Parsable(Some(text)) &&
            |ParseDocstring(Some(text))| == |sections| &&
            (forall i :: 0 <= i < |sections| ==> ParseDocstring(Some(text))[i] == Chunk(kinds[i], Some(sections[i]))) &&
            DocstringErrors(ParseDocstring(Some(text))) == []
  {
    var sections := Layout(descs, steps, pass, fail, refs);
    var text := Render(sections) + e;
    ParsedLayout(descs, steps, pass, fail, refs, e);
    var chunks := ParseDocstring(Some(text));
    LayoutRespectsSchema(chunks, |descs|, |refs|);
    DocstringAcceptedExactly(chunks);
  }
}
