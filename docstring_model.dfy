/**
  The docstring model: a docstring text is cut into raw sections at blank lines, each
  raw section becomes a section value, and validation reports the occurrence findings
  of the schema followed by each section's own findings.
*/
module DocstringModel {
  import opened Wrappers
  import opened Seqs
  import opened Text
  import opened ValidationErrors
  import opened ChunkTypes
  import opened Validators
  import opened Chunks

  /** `Docstring.schema`, in its order: one or more descriptions, exactly one each of
      test steps, pass criteria and fail criteria, at most one references section. */
  const Schema: seq<SchemaEntry> := [
    SchemaEntry(Description, Range(1, Unbounded)),
    SchemaEntry(TestSteps, Range(1, Finite(1))),
    SchemaEntry(PassCriteria, Range(1, Finite(1))),
    SchemaEntry(FailCriteria, Range(1, Finite(1))),
    SchemaEntry(References, Range(0, Finite(1)))
  ]

  /** The occurrence findings for this schema: one entry after the other. */
  lemma SchemaOccurrenceErrors(chunks: seq<Chunk>)
    ensures OccurrenceErrors(chunks, Schema) ==
            ToSeq(OccurrenceError(Schema[0], Count(chunks, Description))) +
            ToSeq(OccurrenceError(Schema[1], Count(chunks, TestSteps))) +
            ToSeq(OccurrenceError(Schema[2], Count(chunks, PassCriteria))) +
            ToSeq(OccurrenceError(Schema[3], Count(chunks, FailCriteria))) +
            ToSeq(OccurrenceError(Schema[4], Count(chunks, References)))
  {
    var e0, e1, e2, e3, e4 := Schema[0], Schema[1], Schema[2], Schema[3], Schema[4];
    assert Schema == [] + [e0] + [e1] + [e2] + [e3] + [e4];
    OccurrenceErrorsSnoc(chunks, [], e0);
    OccurrenceErrorsSnoc(chunks, [] + [e0], e1);
    OccurrenceErrorsSnoc(chunks, [] + [e0] + [e1], e2);
    OccurrenceErrorsSnoc(chunks, [] + [e0] + [e1] + [e2], e3);
    OccurrenceErrorsSnoc(chunks, [] + [e0] + [e1] + [e2] + [e3], e4);
    AppendEmpty(ToSeq(OccurrenceError(e0, Count(chunks, Description))));
  }

  /** Every kind has a counter, so counting parsed sections never fails. */
  lemma SchemaCoversAllKinds()
    ensures forall k: ChunkKind :: k in SchemaKinds(Schema)
  {
    forall k: ChunkKind ensures k in SchemaKinds(Schema) {
      var i := match k
        case Description => 0
        case TestSteps => 1
        case PassCriteria => 2
        case FailCriteria => 3
        case References => 4;
      assert Schema[i].kind == k;
    }
  }

  /** No minimum in the schema exceeds one, so `E213` is never reported. */
  lemma {:induction false} SchemaNeverBelowMinimum(chunks: seq<Chunk>, n: nat)
    requires n <= |Schema|
    ensures forall k :: 0 <= k < |OccurrenceErrors(chunks, Schema[..n])| ==>
              OccurrenceErrors(chunks, Schema[..n])[k].code != "E213"
    decreases n
  {
    if n > 0 {
      SchemaNeverBelowMinimum(chunks, n - 1);
      TakePrefix(Schema, n - 1, n);
      var entry := Schema[n - 1];
      assert Schema[..n][n - 1] == entry;
      OccurrenceErrorCases(entry, Count(chunks, entry.kind));
    }
  }

  // ---------------------------------------------------------------------------
  // Raw splitting

  /** `[line.strip() for line in lines if line]`: lines empty as they stand are
      dropped, the others stripped, so a line of blanks survives as `""`. */
  function CleanLines(lines: seq<string>): (r: seq<string>)
    ensures |r| <= |lines|
  {
    if lines == [] then []
    else
      var last := lines[|lines| - 1];
      CleanLines(lines[..|lines| - 1]) + (if last != "" then [Strip(last)] else [])
  }

  /** Every kept line is stripped. */
  lemma {:induction false} CleanLinesStripped(lines: seq<string>)
    ensures forall k :: 0 <= k < |CleanLines(lines)| ==> IsStripped(CleanLines(lines)[k])
    decreases |lines|
  {
    if lines != [] {
      CleanLinesStripped(lines[..|lines| - 1]);
      StripSpec(lines[|lines| - 1]);
    }
  }

  /** A character that occurs in no input line occurs in no kept line. */
  lemma {:induction false} CleanLinesAvoid(lines: seq<string>, c: char)
    requires forall j :: 0 <= j < |lines| ==> c !in lines[j]
    ensures forall k :: 0 <= k < |CleanLines(lines)| ==> c !in CleanLines(lines)[k]
    decreases |lines|
  {
    if lines != [] {
      var init := lines[..|lines| - 1];
      assert forall j :: 0 <= j < |init| ==> init[j] == lines[j];
      CleanLinesAvoid(init, c);
      StripChars(lines[|lines| - 1]);
    }
  }

  /** Lines that are already clean pass through unchanged. */
  lemma {:induction false} CleanLinesOfCleanLines(lines: seq<string>)
    requires forall k :: 0 <= k < |lines| ==> lines[k] != "" && IsStripped(lines[k])
    ensures CleanLines(lines) == lines
    decreases |lines|
  {
    if lines != [] {
      var init := lines[..|lines| - 1];
      var last := lines[|lines| - 1];
      CleanLinesOfCleanLines(init);
      StrippedIsFixed(last);
      InitLast(lines);
    }
  }

  /** The raw sections of a text: its pieces between `\n\n` separators, each cut into
      lines and cleaned. */
  function RawChunks(text: string): seq<seq<string>> {
    var pieces := Split(text, "\n\n");
    seq(|pieces|, i requires 0 <= i < |pieces| => CleanLines(Split(pieces[i], "\n")))
  }

  /** There is always at least one raw section, and its lines are stripped and hold no
      line feed. */
  lemma RawChunksSpec(text: string)
    ensures var raws := RawChunks(text);
            |raws| >= 1 &&
            forall i, k :: 0 <= i < |raws| && 0 <= k < |raws[i]| ==> IsStripped(raws[i][k]) && '\n' !in raws[i][k]
  {
    var pieces := Split(text, "\n\n");
    var raws := RawChunks(text);
    forall i | 0 <= i < |raws|
      ensures forall k :: 0 <= k < |raws[i]| ==> IsStripped(raws[i][k]) && '\n' !in raws[i][k]
    {
      var lines := Split(pieces[i], "\n");
      assert raws[i] == CleanLines(lines);
      SplitCharPieces(pieces[i], '\n');
      CleanLinesStripped(lines);
      CleanLinesAvoid(lines, '\n');
    }
  }

  /** A text without any `\n\n` is one raw section. */
  lemma NoBlankLineIsOneChunk(text: string)
    requires forall j :: 0 <= j < |text| ==> !OccursAt(text, j, "\n\n")
    ensures RawChunks(text) == [CleanLines(Split(text, "\n"))]
  {
    SplitNone(text, "\n\n");
  }

  // ---------------------------------------------------------------------------
  // Rendering sections back to text

  /** A line as a parsed docstring holds it when it is not blank. */
  predicate CleanLine(line: string) {
    line != "" && IsStripped(line) && '\n' !in line
  }

  /** A raw section of non-blank lines. */
  predicate CleanChunk(lines: seq<string>) {
    lines != [] && forall k :: 0 <= k < |lines| ==> CleanLine(lines[k])
  }

  /** The text of the given sections: lines joined by `\n`, sections by `\n\n`. */
  function Render(chunks: seq<seq<string>>): string {
    Join(seq(|chunks|, i requires 0 <= i < |chunks| => Join(chunks[i], "\n")), "\n\n")
  }

  /** A non-empty piece holding no two adjacent line feeds and not ending in one. */
  predicate NoBlankLine(p: string) {
    p != [] && p[|p| - 1] != '\n' && forall j :: 0 <= j < |p| - 1 ==> !(p[j] == '\n' && p[j + 1] == '\n')
  }

  lemma {:induction false} JoinedLinesHaveNoBlankLine(lines: seq<string>)
    requires CleanChunk(lines)
    ensures NoBlankLine(Join(lines, "\n"))
    decreases |lines|
  {
    var x := lines[0];
    assert CleanLine(x);
    if |lines| > 1 {
      var ys := lines[1..];
      JoinedLinesHaveNoBlankLine(ys);
      JoinCons(x, ys, "\n");
      HeadTail(lines);
      var y := Join(ys, "\n");
      var p := x + "\n" + y;
      assert Join(lines, "\n") == p;
      assert y[0] == ys[0][0] by {
        assert CleanLine(ys[0]);
        if |ys| > 1 {
          JoinCons(ys[0], ys[1..], "\n");
          HeadTail(ys);
        }
      }
      assert CleanLine(ys[0]);
      forall j | 0 <= j < |p| - 1 ensures !(p[j] == '\n' && p[j + 1] == '\n') {
        if j < |x| - 1 {
          assert p[j] == x[j];
        } else if j == |x| - 1 {
          assert p[j] == x[j];
        } else if j == |x| {
          assert p[j + 1] == y[0];
        } else {
          assert p[j] == y[j - |x| - 1] && p[j + 1] == y[j - |x|];
        }
      }
    }
  }

  /** In a piece without a blank line the separator `\n\n` cannot start inside it,
      whatever follows. */
  lemma NoSeparatorInside(p: string, y: string)
    requires NoBlankLine(p)
    ensures forall j :: 0 <= j < |p| ==> !OccursAt(p + y, j, "\n\n")
  {
    var s := p + y;
    forall j | 0 <= j < |p| ensures !OccursAt(s, j, "\n\n") {
      assert s[j] == p[j];
      if j + 2 <= |s| {
        assert s[j..j + 2][0] == s[j] && s[j..j + 2][1] == s[j + 1];
        if j < |p| - 1 {
          assert s[j + 1] == p[j + 1];
        }
      }
    }
  }

  /** Splitting rendered pieces at `\n\n` gives the pieces back; a final line feed
      stays on the last piece. */
  lemma {:induction false} SplitRendered(ps: seq<string>, e: string)
    requires ps != [] && (forall k :: 0 <= k < |ps| ==> NoBlankLine(ps[k])) && (e == "" || e == "\n")
    ensures Split(Join(ps, "\n\n") + e, "\n\n") == ps[..|ps| - 1] + [ps[|ps| - 1] + e]
    decreases |ps|
  {
    var p := ps[0];
    assert NoBlankLine(p);
    if |ps| == 1 {
      NoSeparatorInside(p, e);
      SplitNone(p + e, "\n\n");
      assert ps[..0] == [];
    } else {
      var t := ps[1..];
      assert forall k :: 0 <= k < |t| ==> t[k] == ps[k + 1];
      SplitRendered(t, e);
      HeadTail(ps);
      JoinCons(p, t, "\n\n");
      var y := Join(t, "\n\n") + e;
      Assoc(p + "\n\n", Join(t, "\n\n"), e);
      Assoc(p, "\n\n", y);
      NoSeparatorInside(p, "\n\n" + y);
      SplitFirst(p, y, "\n\n");
      ConsInitSnoc(ps, ps[|ps| - 1] + e);
    }
  }

  /** An empty line is dropped. */
  lemma CleanLinesDropsEmpty(lines: seq<string>)
    ensures CleanLines(lines + [""]) == CleanLines(lines)
  {
    DropLast(lines, "");
    AppendEmpty(CleanLines(lines));
  }

  lemma NoLineFeedInLines(lines: seq<string>)
    requires CleanChunk(lines)
    ensures forall k :: 0 <= k < |lines| ==> '\n' !in lines[k]
    ensures forall k :: 0 <= k < |lines + [""]| ==> '\n' !in (lines + [""])[k]
  {
    forall k | 0 <= k < |lines + [""]| ensures '\n' !in (lines + [""])[k] {
      if k < |lines| {
        assert (lines + [""])[k] == lines[k];
        assert CleanLine(lines[k]);
      }
    }
  }

  /** The lines of one rendered section come back from splitting and cleaning. */
  lemma PieceLines(lines: seq<string>, e: string)
    requires CleanChunk(lines) && (e == "" || e == "\n")
    ensures CleanLines(Split(Join(lines, "\n") + e, "\n")) == lines
  {
    assert forall k :: 0 <= k < |lines| ==> CleanLine(lines[k]);
    CleanLinesOfCleanLines(lines);
    NoLineFeedInLines(lines);
    if e == "" {
      AppendEmpty(Join(lines, "\n"));
      SplitJoinChar(lines, '\n');
    } else {
      JoinSnoc(lines, "", "\n");
      AppendEmpty(Join(lines, "\n") + "\n");
      SplitJoinChar(lines + [""], '\n');
      CleanLinesDropsEmpty(lines);
    }
  }

  /** Raw splitting undoes rendering: sections of non-blank, stripped lines, written
      with one line feed between lines and a blank line between sections (and perhaps
      a final line feed), come back as they were. */
  lemma RawChunksOfRender(chunks: seq<seq<string>>, e: string)
    requires chunks != [] && (forall i :: 0 <= i < |chunks| ==> CleanChunk(chunks[i])) && (e == "" || e == "\n")
    ensures RawChunks(Render(chunks) + e) == chunks
  {
    var n := |chunks|;
    var ps := seq(n, i requires 0 <= i < n => Join(chunks[i], "\n"));
    forall k | 0 <= k < n ensures NoBlankLine(ps[k]) {
      JoinedLinesHaveNoBlankLine(chunks[k]);
    }
    SplitRendered(ps, e);
    var pieces := Split(Render(chunks) + e, "\n\n");
    assert pieces == ps[..n - 1] + [ps[n - 1] + e];
    var raws := RawChunks(Render(chunks) + e);
    forall i | 0 <= i < n ensures raws[i] == chunks[i] {
      if i < n - 1 {
        assert pieces[i] == ps[i];
        PieceLines(chunks[i], "");
        AppendEmpty(ps[i]);
      } else {
        assert pieces[i] == ps[i] + e;
        PieceLines(chunks[i], e);
      }
    }
  }

  // ---------------------------------------------------------------------------
  // Parsing and validation

  /** The docstring parses: every raw section can be built (a first line, and a single
      colon in a one-line References section). */
  predicate Parsable(raw: Option<string>) {
    raw.Some? ==> forall i :: 0 <= i < |RawChunks(raw.value)| ==> Constructible(RawChunks(raw.value)[i])
  }

  /** The sections `Docstring.__init__` builds: none without a docstring, otherwise one
      per raw section, in order. */
  function ParseDocstring(raw: Option<string>): seq<Chunk>
    requires Parsable(raw)
  {
    if raw.None? then []
    else
      var raws := RawChunks(raw.value);
      seq(|raws|, i requires 0 <= i < |raws| => MakeChunk(raws[i]))
  }

  function E300(): ValidationError {
    ValidationError("E300", "Missing/Empty docstring")
  }

  /** The findings of all sections, section by section. */
  function AllChunkErrors(chunks: seq<Chunk>): seq<ValidationError> {
    if chunks == [] then []
    else AllChunkErrors(chunks[..|chunks| - 1]) + ChunkErrors(chunks[|chunks| - 1])
  }

  /** What `Docstring.validate` reports: `E300` alone when there is no section,
      otherwise the occurrence findings in schema order followed by the sections'
      findings in section order. */
  function DocstringErrors(chunks: seq<Chunk>): seq<ValidationError> {
    if chunks == [] then [E300()]
    else OccurrenceErrors(chunks, Schema) + AllChunkErrors(chunks)
  }

  /** Each section adds at most one finding, with a section-validator code. */
  lemma {:induction false} AllChunkErrorsSpec(chunks: seq<Chunk>)
    ensures var errors := AllChunkErrors(chunks);
            |errors| <= |chunks| &&
            forall k :: 0 <= k < |errors| ==> errors[k].code in {"E100", "E111", "E112", "E113", "E121", "E122", "E123"}
    decreases |chunks|
  {
    if chunks != [] {
      var init := chunks[..|chunks| - 1];
      var last := chunks[|chunks| - 1];
      AllChunkErrorsSpec(init);
      ChunkErrorsSpec(last);
      if last.content.Some? {
        ListErrorCodes(ValidatorFor(ContentTypeOf(last.kind)), last.content.value, last.kind.Value());
      }
    }
  }

  /** A code absent from two lists of findings is absent from their concatenation. */
  lemma CodeAbsentFromBoth(a: seq<ValidationError>, b: seq<ValidationError>, code: string)
    requires forall k :: 0 <= k < |a| ==> a[k].code != code
    requires forall k :: 0 <= k < |b| ==> b[k].code != code
    ensures forall k :: 0 <= k < |a + b| ==> (a + b)[k].code != code
  {
    forall k | 0 <= k < |a + b| ensures (a + b)[k].code != code {
      if k < |a| {
        assert (a + b)[k] == a[k];
      } else {
        assert (a + b)[k] == b[k - |a|];
      }
    }
  }

  /** At most one finding per schema kind and per section; `E300` only and exactly for a
      docstring without sections, and never `E213`. */
  lemma DocstringErrorsSpec(chunks: seq<Chunk>)
    ensures |DocstringErrors(chunks)| <= |Schema| + |chunks|
    ensures chunks == [] ==> DocstringErrors(chunks) == [E300()]
    ensures chunks != [] ==> forall k :: 0 <= k < |DocstringErrors(chunks)| ==>
              DocstringErrors(chunks)[k].code != "E300" && DocstringErrors(chunks)[k].code != "E213"
  {
    if chunks != [] {
      var occurrence := OccurrenceErrors(chunks, Schema);
      var own := AllChunkErrors(chunks);
      OccurrenceErrorsBounded(chunks, Schema);
      SchemaNeverBelowMinimum(chunks, |Schema|);
      TakeAll(Schema);
      AllChunkErrorsSpec(chunks);
      assert forall k :: 0 <= k < |occurrence| ==> occurrence[k].code != "E300";
      assert forall k :: 0 <= k < |own| ==> own[k].code != "E300" && own[k].code != "E213";
      CodeAbsentFromBoth(occurrence, own, "E300");
      CodeAbsentFromBoth(occurrence, own, "E213");
    }
  }

  /** `E300` is reported exactly for a missing docstring: any text gives at least one
      section. */
  lemma E300ExactlyWithoutDocstring(raw: Option<string>)
    requires Parsable(raw)
    ensures var errors := DocstringErrors(ParseDocstring(raw));
            (raw.None? ==> errors == [E300()]) &&
            (raw.Some? ==> forall k :: 0 <= k < |errors| ==> errors[k].code != "E300")
  {
    if raw.Some? {
      RawChunksSpec(raw.value);
    }
    DocstringErrorsSpec(ParseDocstring(raw));
  }

  /** A section with a finding makes the list of all findings non-empty. */
  lemma {:induction false} ChunkErrorShows(chunks: seq<Chunk>, i: nat)
    requires i < |chunks| && ChunkErrors(chunks[i]) != []
    ensures AllChunkErrors(chunks) != []
    decreases |chunks|
  {
    var init := chunks[..|chunks| - 1];
    var own := ChunkErrors(chunks[|chunks| - 1]);
    assert AllChunkErrors(chunks) == AllChunkErrors(init) + own;
    if i < |init| {
      assert init[i] == chunks[i];
      ChunkErrorShows(init, i);
      NonEmptyAppend(AllChunkErrors(init), own);
    } else {
      assert own != [];
      NonEmptyAppend(own, AllChunkErrors(init));
    }
  }

  /** Sections without findings give no findings. */
  lemma {:induction false} NoChunkErrors(chunks: seq<Chunk>)
    requires forall i :: 0 <= i < |chunks| ==> ChunkErrors(chunks[i]) == []
    ensures AllChunkErrors(chunks) == []
    decreases |chunks|
  {
    if chunks != [] {
      var init := chunks[..|chunks| - 1];
      assert forall i :: 0 <= i < |init| ==> init[i] == chunks[i];
      NoChunkErrors(init);
      assert ChunkErrors(chunks[|chunks| - 1]) == [];
    }
  }

  /** No section has a finding exactly when every section passes its validator. */
  lemma AllChunkErrorsEmpty(chunks: seq<Chunk>)
    ensures AllChunkErrors(chunks) == [] <==> forall i :: 0 <= i < |chunks| ==> ChunkErrors(chunks[i]) == []
  {
    if forall i :: 0 <= i < |chunks| ==> ChunkErrors(chunks[i]) == [] {
      NoChunkErrors(chunks);
    } else {
      var i :| 0 <= i < |chunks| && ChunkErrors(chunks[i]) != [];
      ChunkErrorShows(chunks, i);
    }
  }

  /** The schema in plain words: at least one description, exactly one each of test
      steps, pass criteria and fail criteria, at most one references section. */
  predicate SchemaRespected(chunks: seq<Chunk>) {
    Count(chunks, Description) >= 1 && Count(chunks, TestSteps) == 1 && Count(chunks, PassCriteria) == 1 &&
    Count(chunks, FailCriteria) == 1 && Count(chunks, References) <= 1
  }

  lemma SchemaRespectedExactly(chunks: seq<Chunk>)
    ensures SchemaRespected(chunks) <==>
            forall k :: 0 <= k < |Schema| ==> InRange(Count(chunks, Schema[k].kind), Schema[k].range)
  {
    if SchemaRespected(chunks) {
      forall k | 0 <= k < |Schema| ensures InRange(Count(chunks, Schema[k].kind), Schema[k].range) {
      }
    } else {
      assert !InRange(Count(chunks, Description), Schema[0].range) || !InRange(Count(chunks, TestSteps), Schema[1].range) ||
             !InRange(Count(chunks, PassCriteria), Schema[2].range) || !InRange(Count(chunks, FailCriteria), Schema[3].range) ||
             !InRange(Count(chunks, References), Schema[4].range);
    }
  }

  /** A docstring passes validation exactly when it has sections, their kinds respect
      the schema, and every section passes its own validator. */
  lemma DocstringAcceptedExactly(chunks: seq<Chunk>)
    ensures DocstringErrors(chunks) == [] <==>
            chunks != [] && SchemaRespected(chunks) && forall i :: 0 <= i < |chunks| ==> ChunkErrors(chunks[i]) == []
  {
    if chunks != [] {
      OccurrenceErrorsEmpty(chunks, Schema);
      SchemaRespectedExactly(chunks);
      AllChunkErrorsEmpty(chunks);
    }
  }

  /** The docstring of a test function: the text it was built from and its sections. */
  class Docstring {
    const raw: Option<string>
    const chunks: seq<Chunk>

    /** `Docstring.__init__`. */
    constructor (rawDocstring: Option<string>)
      requires Parsable(rawDocstring)
      ensures raw == rawDocstring && chunks == ParseDocstring(rawDocstring)
    {
      raw := rawDocstring;
      if rawDocstring.None? {
        chunks := [];
      } else {
        var rawChunks := GetRawChunks(rawDocstring.value);
        var parsed := ParseRawChunks(rawChunks);
        chunks := parsed;
      }
    }

    /** `_get_raw_chunks`. */
    static method GetRawChunks(rawDocstring: string) returns (rawChunks: seq<seq<string>>)
      ensures rawChunks == RawChunks(rawDocstring)
    {
      var stringChunks := Split(rawDocstring, "\n\n");
      rawChunks := [];
      for i := 0 to |stringChunks|
        invariant |rawChunks| == i
        invariant forall j :: 0 <= j < i ==> rawChunks[j] == CleanLines(Split(stringChunks[j], "\n"))
      {
        rawChunks := rawChunks + [CleanLines(Split(stringChunks[i], "\n"))];
      }
    }

    /** `_parse_raw_chunks`: one section per raw section, in order. */
    static method ParseRawChunks(rawChunks: seq<seq<string>>) returns (parsed: seq<Chunk>)
      requires forall i :: 0 <= i < |rawChunks| ==> Constructible(rawChunks[i])
      ensures |parsed| == |rawChunks|
      ensures forall i :: 0 <= i < |parsed| ==> parsed[i] == MakeChunk(rawChunks[i])
    {
      parsed := [];
      for i := 0 to |rawChunks|
        invariant |parsed| == i
        invariant forall j :: 0 <= j < i ==> parsed[j] == MakeChunk(rawChunks[j])
      {
        parsed := parsed + [MakeChunk(rawChunks[i])];
      }
    }

    /** `Docstring.validate`. */
    method Validate() returns (errors: seq<ValidationError>)
      ensures errors == DocstringErrors(chunks)
    {
      errors := [];
      if |chunks| == 0 {
        errors := errors + [E300()];
        return;
      }
      SchemaCoversAllKinds();
      var result := ValidateChunkOccurrences(chunks, Schema);
      if result != [] {
        errors := errors + result;
      }
      AppendEmpty(result);
      for i := 0 to |chunks|
        invariant errors == OccurrenceErrors(chunks, Schema) + AllChunkErrors(chunks[..i])
      {
        TakePrefix(chunks, i, i + 1);
        var own := ValidateChunk(chunks[i]);
        Assoc(OccurrenceErrors(chunks, Schema), AllChunkErrors(chunks[..i]), own);
        if own != [] {
          errors := errors + own;
        } else {
          AppendEmpty(errors);
        }
      }
      TakeAll(chunks);
    }
  }
}
