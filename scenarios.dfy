/**
  The examples of the repository's tests, worked out on the model: the lists of
  `tests/test_validators.py`, the raw sections of `tests/test_docstring_model.py`
  and the reference sections of `tests/test_chunks.py`.
*/
module Scenarios {
  import opened Wrappers
  import opened Seqs
  import opened Text
  import opened ValidationErrors
  import opened ChunkTypes
  import opened Validators
  import opened Chunks
  import opened DocstringModel

  // ---------------------------------------------------------------------------
  // List validators

  /** An item line followed by a line that opens no item is one item. */
  lemma MergeWrapped(first: string, s: string, m: string, kind: ListKind)
    requires IsItemStart(s, kind) && !IsItemStart(m, kind)
    ensures MergeItems(first, [s, m], kind) == [first, s + " " + m]
  {
    MergeOpening(first, [], s, kind);
    assert [] + [s] == [s];
    MergeContinuation(first, [s], m, kind);
    assert [s] + [m] == [s, m];
    assert [first, s][..1] == [first];
  }

  /** Merging five item lines after the first, the second of which opens no item. */
  lemma MergeWithSecondWrapped(first: string, s2: string, m: string, s3: string, s4: string, s5: string, kind: ListKind)
    requires IsItemStart(s2, kind) && !IsItemStart(m, kind)
    requires IsItemStart(s3, kind) && IsItemStart(s4, kind) && IsItemStart(s5, kind)
    ensures MergeItems(first, [s2, m, s3, s4, s5], kind) == [first, s2 + " " + m, s3, s4, s5]
  {
    MergeWrapped(first, s2, m, kind);
    MergeOpenings(first, [s2, m], [s3, s4, s5], kind);
    assert [s2, m] + [s3, s4, s5] == [s2, m, s3, s4, s5];
  }

  /** Five numbered items, the second wrapped onto a line that opens no item, pass the
      ordered-list validator. */
  lemma FiveItemsSecondWrapped(header: string, first: string, s2: string, m: string, s3: string, s4: string, s5: string, section: string)
    requires FirstElementOk(first, Ordered) && NumberedAs(first, 1)
    requires IsOrderedMarker(s2) && IsOrderedMarker(s3) && IsOrderedMarker(s4) && IsOrderedMarker(s5) && !IsOrderedMarker(m)
    requires NumberedAs(s2, 2) && NumberedAs(s3, 3) && NumberedAs(s4, 4) && NumberedAs(s5, 5)
    ensures OrderedListError([header, first, s2, m, s3, s4, s5], section) == None
  {
    MergeWithSecondWrapped(first, s2, m, s3, s4, s5, Ordered);
    var content := [header, first, s2, m, s3, s4, s5];
    assert content[2..] == [s2, m, s3, s4, s5];
    var items := [first, s2 + " " + m, s3, s4, s5];
    forall j | 0 <= j < |items| ensures NumberedAs(items[j], j + 1) {
      if j == 0 {
        assert items[j] == first;
      } else if j == 1 {
        assert items[j] == s2 + (" " + m) by {
          Assoc(s2, " ", m);
        }
        StripAppendKeepsPrefix(s2, " " + m, NatToString(2) + ". ");
      } else if j == 2 {
        assert items[j] == s3;
      } else if j == 3 {
        assert items[j] == s4;
      } else {
        assert items[j] == s5;
      }
    }
  }

  /** `ordered_lists_nok`, first list: the second item is wrapped and opens with a
      number that does not start with `2` (`34. `), so the numbering check fails
      (`E113`) even though every line is well-shaped. */
  lemma SecondItemMisnumbered(header: string, first: string, s2: string, m: string, s3: string, s4: string, s5: string, section: string)
    requires FirstElementOk(first, Ordered)
    requires IsOrderedMarker(s2) && IsOrderedMarker(s3) && IsOrderedMarker(s4) && IsOrderedMarker(s5) && !IsOrderedMarker(m)
    requires IsStripped(s2) && s2 != [] && s2[0] != '2'
    ensures OrderedListError([header, first, s2, m, s3, s4, s5], section) == Some(E113(section))
  {
    MergeWithSecondWrapped(first, s2, m, s3, s4, s5, Ordered);
    var content := [header, first, s2, m, s3, s4, s5];
    assert content[2..] == [s2, m, s3, s4, s5];
    var items := [first, s2 + " " + m, s3, s4, s5];
    StrippedIsFixed(s2);
    StripAppend(s2, " " + m);
    Assoc(s2, " ", m);
    StartsWithAt(Strip(items[1]), s2, 0);
    assert NatToString(2) == "2";
    assert !NumberedAs(items[1], 2);
  }

  /** `unordered_lists_ok`: two dashed items, the first wrapped onto a line that opens
      no item, pass the unordered-list validator. */
  lemma TwoItemsFirstWrapped(header: string, first: string, m: string, s2: string, section: string)
    requires FirstElementOk(first, Unordered) && Dashed(first) && !IsUnorderedMarker(m)
    requires IsUnorderedMarker(s2) && Dashed(s2)
    ensures UnorderedListError([header, first, m, s2], section) == None
  {
    MergeContinuation(first, [], m, Unordered);
    assert [] + [m] == [m] && [first][..0] == [];
    MergeOpening(first, [m], s2, Unordered);
    assert [m] + [s2] == [m, s2];
    var content := [header, first, m, s2];
    assert content[2..] == [m, s2];
    var items := [first + " " + m, s2];
    assert MergeItems(first, [m, s2], Unordered) == items;
    Assoc(first, " ", m);
    StripAppendKeepsPrefix(first, " " + m, "- ");
    assert Dashed(items[0]) && Dashed(items[1]);
  }

  /** `ordered_lists_nok`: a header alone has no items (`E111`). */
  lemma OrderedListWithoutItems()
    ensures OrderedListError(["Test steps:"], "Test Steps") == Some(E111("Test Steps"))
  {
  }

  /** `ordered_lists_nok`: a first item with no `1` followed by a space (`E112`). */
  lemma OrderedListWithoutNumber()
    ensures OrderedListError(["Test steps:", "Not starting with number"], "Test Steps") == Some(E112("Test Steps"))
  {
    var element := "Not starting with number";
    assert forall i :: 0 <= i < |element| ==> element[i] != '1';
  }

  /** `unordered_lists_nok`: a header alone has no items (`E121`). */
  lemma UnorderedListWithoutItems()
    ensures UnorderedListError(["Pass criteria:"], "Pass Criteria") == Some(E121("Pass Criteria"))
  {
  }

  /** `unordered_lists_nok`: a first item without any dash (`E122`). */
  lemma UnorderedListWithoutDash()
    ensures UnorderedListError(["Fail criteria:", "No dash"], "Fail Criteria") == Some(E122("Fail Criteria"))
  {
    var element := "No dash";
    assert forall i :: 0 <= i < |element| ==> element[i] != '-';
  }

  /** The search for `1. ` runs on the first item line alone, before lines are
      merged: a first item whose number stands on a line of its own fails it (`E112`),
      while the same item written on one line passes. */
  lemma FirstItemWrappedAfterNumber()
    ensures OrderedListError(["Test steps:", "1.", "First step"], "Test Steps") == Some(E112("Test Steps"))
    ensures OrderedListError(["Test steps:", "1. First step"], "Test Steps") == None
  {
    assert |"1."| == 2;
    var line := "1. First step";
    assert line[0] == '1' && line[1] != '\n' && line[2] == ' ';
    var content := ["Test steps:", line];
    assert content[2..] == [];
    assert MergeItems(line, [], Ordered) == [line];
    assert IsStripped(line) by {
      assert line[|line| - 1] == 'p';
    }
    StrippedIsFixed(line);
    assert NatToString(1) == "1";
    assert line[..3] == "1. ";
    assert NumberedAs(line, 1);
  }

  // ---------------------------------------------------------------------------
  // Reference sections

  /** A line `h:rest` with no colon in `h` or `rest` has a single colon. */
  lemma SingleColon(h: string, rest: string)
    requires ':' !in h && ':' !in rest
    ensures multiset(h + ":" + rest)[':'] == 1
  {
    assert multiset(h + ":" + rest) == multiset(h) + multiset(":") + multiset(rest);
    assert multiset(h)[':'] == 0 && multiset(rest)[':'] == 0;
  }

  /** How a line `h:a,b` splits: at its colon into header and entries, and the entries
      at their comma. */
  lemma SplitShorthand(h: string, a: string, b: string)
    requires ':' !in h && ':' !in a && ':' !in b && ',' !in a && ',' !in b
    ensures Split(h + ":" + a + "," + b, ":") == [h, a + "," + b]
    ensures Split(a + "," + b, ",") == [a, b]
  {
    var rest := a + "," + b;
    assert h + ":" + a + "," + b == h + [':'] + rest;
    assert ':' !in rest;
    SplitCharFirst(h, rest, ':');
    SplitCharAbsent(rest, ':');
    assert a + "," + b == a + [','] + b;
    SplitCharFirst(a, b, ',');
    SplitCharAbsent(b, ',');
  }

  /** A one-line section that splits at its single colon into `h` and `rest` expands to
      `h` and one dashed line per comma-separated entry of `rest`. */
  lemma ParseReferenceParts(line: string, h: string, rest: string)
    requires multiset(line)[':'] == 1 && Split(line, ":") == [h, rest]
    ensures ParseReference([line]) == [h] + Bullets(Split(rest, ","))
  {
  }

  /** `test_reference_chunk`, shorthand form: `Head:a,b` (with no further colon or
      comma) expands to the header and one dashed line per entry, three lines. */
  lemma ShorthandTwoEntries(h: string, a: string, b: string)
    requires ':' !in h && ':' !in a && ':' !in b && ',' !in a && ',' !in b
    ensures var line := h + ":" + a + "," + b;
            multiset(line)[':'] == 1 &&
            ParseReference([line]) == [h, "- " + Strip(a), "- " + Strip(b)]
  {
    var line := h + ":" + a + "," + b;
    var rest := a + "," + b;
    assert multiset(line)[':'] == 1 by {
      assert line == h + ":" + rest;
      SingleColon(h, rest);
    }
    assert ParseReference([line]) == [h] + Bullets([a, b]) by {
      SplitShorthand(h, a, b);
      ParseReferenceParts(line, h, rest);
    }
    assert Bullets([a, b]) == ["- " + Strip(a), "- " + Strip(b)];
  }

  /** The line generated for a non-blank entry is clean and dashed. */
  lemma BulletLineClean(e: string)
    requires !AllSpace(e)
    ensures IsStripped("- " + Strip(e)) && StartsWith("- " + Strip(e), "- ")
  {
    StripSpec(e);
    var x := Strip(e);
    var line := "- " + x;
    assert line[0] == '-' && line[|line| - 1] == x[|x| - 1];
    AppendParts("- ", x);
  }

  /** A References section holding `head` and the lines generated for two non-blank
      entries has no finding. */
  lemma TwoBulletsValid(head: string, a: string, b: string)
    requires !AllSpace(a) && !AllSpace(b)
    ensures ChunkErrors(Chunk(References, Some([head, "- " + Strip(a), "- " + Strip(b)]))) == []
  {
    var content := [head, "- " + Strip(a), "- " + Strip(b)];
    assert ValidatorErrors([UnorderedListValidator], content, "References") == [] by {
      assert UnorderedListError(content, "References") == None by {
        BulletLineClean(a);
        BulletLineClean(b);
        DashedListAccepted(content, "References");
      }
      SingleValidatorErrors(UnorderedListValidator, content, "References");
    }
    assert References.Value() == "References" && ChunkValidators(References) == [UnorderedListValidator];
  }

  /** The explicit list `Reference:`, `- a`, `- b` builds a References section holding
      its lines, with no finding. */
  lemma ExplicitReferenceValid(a: string, b: string)
    requires !AllSpace(a) && !AllSpace(b)
    ensures var explicit := ["Reference:", "- " + Strip(a), "- " + Strip(b)];
            Constructible(explicit) && MakeChunk(explicit) == Chunk(References, Some(explicit)) &&
            ChunkErrors(MakeChunk(explicit)) == []
  {
    var explicit := ["Reference:", "- " + Strip(a), "- " + Strip(b)];
    assert Constructible(explicit) && MakeChunk(explicit) == Chunk(References, Some(explicit)) by {
      assert "Reference" + ":" + "" == "Reference:";
      HeaderOfLabelledLine("Reference", "");
      assert IdentifyChunk(explicit) == References;
    }
    TwoBulletsValid("Reference:", a, b);
  }

  /** The shorthand `Reference:a,b` builds a References section of the header and the
      two generated lines, with no finding. */
  lemma ShorthandReferenceValid(a: string, b: string)
    requires ':' !in a && ':' !in b && ',' !in a && ',' !in b && !AllSpace(a) && !AllSpace(b)
    ensures var line := "Reference" + ":" + a + "," + b;
            var content := ["Reference", "- " + Strip(a), "- " + Strip(b)];
            Constructible([line]) && MakeChunk([line]) == Chunk(References, Some(content)) &&
            ChunkErrors(MakeChunk([line])) == []
  {
    var line := "Reference" + ":" + a + "," + b;
    var content := ["Reference", "- " + Strip(a), "- " + Strip(b)];
    assert Constructible([line]) && MakeChunk([line]) == Chunk(References, Some(content)) by {
      assert IdentifyChunk([line]) == References by {
        assert line == "Reference" + ":" + (a + "," + b);
        HeaderOfLabelledLine("Reference", a + "," + b);
      }
      ShorthandTwoEntries("Reference", a, b);
    }
    TwoBulletsValid("Reference", a, b);
  }

  /** `test_reference_chunk`: the shorthand `Reference:a,b` and the explicit list
      `Reference:`, `- a`, `- b` both build a References section of three lines with
      the same items, and neither has a finding. */
  lemma ShorthandMatchesExplicitList(a: string, b: string)
    requires ':' !in a && ':' !in b && ',' !in a && ',' !in b && !AllSpace(a) && !AllSpace(b)
    ensures var line := "Reference" + ":" + a + "," + b;
            var explicit := ["Reference:", "- " + Strip(a), "- " + Strip(b)];
            Constructible([line]) && Constructible(explicit) &&
            MakeChunk([line]).kind == MakeChunk(explicit).kind == References &&
            |MakeChunk([line]).content.value| == |MakeChunk(explicit).content.value| == 3 &&
            MakeChunk([line]).content.value[1..] == MakeChunk(explicit).content.value[1..] &&
            ChunkErrors(MakeChunk([line])) == [] && ChunkErrors(MakeChunk(explicit)) == []
  {
    ShorthandReferenceValid(a, b);
    ExplicitReferenceValid(a, b);
    var content := ["Reference", "- " + Strip(a), "- " + Strip(b)];
    var explicit := ["Reference:", "- " + Strip(a), "- " + Strip(b)];
    assert content[1..] == explicit[1..];
  }

  // ---------------------------------------------------------------------------
  // Docstrings

  /** A non-empty, stripped text without line feeds is one raw section of one line. */
  lemma SingleLineText(text: string)
    requires text != [] && IsStripped(text) && '\n' !in text
    ensures RawChunks(text) == [[text]]
  {
    forall j | 0 <= j < |text| ensures !OccursAt(text, j, "\n\n") {
      assert text[j] != '\n';
    }
    NoBlankLineIsOneChunk(text);
    assert "\n" == ['\n'];
    SplitCharAbsent(text, '\n');
    StrippedIsFixed(text);
    assert [text][..0] == [];
    assert CleanLines([text]) == [] + [text];
    AppendEmpty([text]);
    assert Split(text, "\n") == [text];
    assert CleanLines(Split(text, "\n")) == [text];
  }

  /** An empty text is one raw section without lines, which has no header to read: it
      is not parsable (the source fails with an index error) rather than reporting
      `E300`, which only a missing docstring gives. */
  lemma EmptyTextNotParsable()
    ensures RawChunks("") == [[]] && !Parsable(Some(""))
  {
    assert Split("", "\n\n") == [""];
    assert Split("", "\n") == [""];
    assert CleanLines([""]) == [];
    assert RawChunks("")[0] == [];
  }

  /** The split is at each `\n\n`, so a line followed by three blank lines (four line
      feeds in a row) leaves an empty raw section after it, which is not parsable
      either. */
  lemma TwoBlankLinesNotParsable(x: string, y: string)
    requires x != [] && '\n' !in x
    ensures var text := x + "\n\n\n\n" + y;
            |RawChunks(text)| >= 2 && RawChunks(text)[1] == [] && !Parsable(Some(text))
  {
    var text := x + "\n\n\n\n" + y;
    var tail := "\n\n" + y;
    assert Split(text, "\n\n") == [x, ""] + Split(y, "\n\n") by {
      assert text == x + "\n\n" + tail;
      forall j | 0 <= j < |x| ensures !OccursAt(text, j, "\n\n") {
        assert text[j] == x[j];
      }
      SplitFirst(x, tail, "\n\n");
      assert tail == [] + "\n\n" + y;
      SplitFirst([], y, "\n\n");
    }
    assert Split("", "\n") == [""];
    assert CleanLines([""]) == [];
    assert RawChunks(text)[1] == [];
  }

  /** Three line feeds in a row leave no empty raw section: the third starts the next
      section with an empty line, which is dropped. */
  lemma ThreeLineFeedsSeparate(x: string, y: string)
    requires x != [] && y != [] && '\n' !in x && '\n' !in y
    ensures var r := RawChunks(x + "\n\n\n" + y);
            |r| == 2 && r[0] == [Strip(x)] && r[1] == [Strip(y)]
  {
    var text := x + "\n\n\n" + y;
    var tail := "\n" + y;
    assert Split(text, "\n\n") == [x, tail] by {
      assert text == x + "\n\n" + tail;
      forall j | 0 <= j < |x| ensures !OccursAt(text, j, "\n\n") {
        assert text[j] == x[j];
      }
      SplitFirst(x, tail, "\n\n");
      forall j | 0 <= j < |tail| ensures !OccursAt(tail, j, "\n\n") {
        if j + 2 <= |tail| {
          assert tail[j + 1] == y[j];
        }
      }
      SplitNone(tail, "\n\n");
    }
    assert CleanLines(Split(x, "\n")) == [Strip(x)] by {
      assert "\n" == ['\n'];
      SplitCharAbsent(x, '\n');
      assert [x][..0] == [];
    }
    assert CleanLines(Split(tail, "\n")) == [Strip(y)] by {
      assert "\n" == ['\n'];
      assert tail == [] + ['\n'] + y;
      SplitCharFirst([], y, '\n');
      SplitCharAbsent(y, '\n');
      assert Split(tail, "\n") == ["", y];
      assert CleanLines([""]) == [];
      assert ["", y][..1] == [""];
    }
  }

  /** Only descriptions: the three required list kinds are each reported missing. */
  lemma DescriptionsOnlyOccurrences(chunks: seq<Chunk>)
    requires chunks != []
    requires forall i :: 0 <= i < |chunks| ==> chunks[i].kind == Description
    ensures var r := OccurrenceErrors(chunks, Schema);
            |r| == 3 && r[0] == E211("Test Steps") && r[1] == E211("Pass Criteria") && r[2] == E211("Fail Criteria")
  {
    CountOfUniform(chunks, Description, TestSteps);
    CountOfUniform(chunks, Description, PassCriteria);
    CountOfUniform(chunks, Description, FailCriteria);
    CountOfUniform(chunks, Description, References);
    SchemaOccurrenceErrors(chunks);
  }

  /** Sections that are all descriptions miss the three required list sections. */
  lemma DescriptionsOnly(chunks: seq<Chunk>)
    requires chunks != []
    requires forall i :: 0 <= i < |chunks| ==> chunks[i].kind == Description && chunks[i].content.Some?
    ensures DocstringErrors(chunks) == [E211("Test Steps"), E211("Pass Criteria"), E211("Fail Criteria")]
  {
    forall i | 0 <= i < |chunks| ensures ChunkErrors(chunks[i]) == [] {
      SingleValidatorErrors(ParagraphValidator, chunks[i].content.value, "Description");
    }
    NoChunkErrors(chunks);
    DescriptionsOnlyOccurrences(chunks);
    AppendEmpty(OccurrenceErrors(chunks, Schema));
  }

  /** `test_get_raw_chunks_oneliner`: the one-line docstring is one section of one line;
      it parses as a description, and validation reports the three missing list
      sections. */
  lemma OneLiner(text: string)
    requires text == "Simple docstring."
    ensures RawChunks(text) == [[text]]
    ensures Parsable(Some(text)) && ParseDocstring(Some(text)) == [Chunk(Description, Some([text]))]
    ensures DocstringErrors(ParseDocstring(Some(text))) == [E211("Test Steps"), E211("Pass Criteria"), E211("Fail Criteria")]
  {
    assert text[0] == 'S' && text[|text| - 1] == '.';
    assert forall j :: 0 <= j < |text| ==> text[j] != '\n' && text[j] != ':';
    SingleLineText(text);
    HeaderOfPlainLine(text);
    assert IdentifyChunk([text]) == Description;
    var chunks := ParseDocstring(Some(text));
    assert chunks == [Chunk(Description, Some([text]))];
    DescriptionsOnly(chunks);
  }
}
