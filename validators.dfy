/**
  The validators of the docstring model. Chunk validators check the lines of one
  section and report at most one error; the docstring validator checks how often each
  kind of section occurs against a schema.
*/
module Validators {
  import opened Wrappers
  import opened Seqs
  import opened Text
  import opened ValidationErrors
  import opened ChunkTypes

  /** The two list formats `_merge_multiline_elements` knows: "ordered" and "unordered". */
  datatype ListKind = Ordered | Unordered

  // ---------------------------------------------------------------------------
  // Error values, one per code

  function E111(section: string): ValidationError {
    ValidationError("E111", section + " list elements are missing")
  }

  function E112(section: string): ValidationError {
    ValidationError("E112", section + " first element in a list should start with 1.")
  }

  function E113(section: string): ValidationError {
    ValidationError("E113", section + " list elements have wrong numbering")
  }

  function E121(section: string): ValidationError {
    ValidationError("E121", section + " list elements are missing")
  }

  function E122(section: string): ValidationError {
    ValidationError("E122", section + " first element in a list should start with -")
  }

  function E123(section: string): ValidationError {
    ValidationError("E123", section + " list elements should start with a dash ('-')")
  }

  function E211(section: string): ValidationError {
    ValidationError("E211", section + " section is missing")
  }

  function E212(section: string, actual: nat, max: Bound): ValidationError {
    ValidationError("E212", "Detected " + section + " section " + NatToString(actual)
                            + " time(s), max allowed is " + BoundToString(max))
  }

  function E213(section: string, actual: nat, min: nat): ValidationError {
    ValidationError("E213", "Detected " + section + " section " + NatToString(actual)
                            + " time(s), min allowed is " + NatToString(min))
  }

  // ---------------------------------------------------------------------------
  // The fixed patterns

  /** `re.search(r"^\s*\d+\. ", line)`: leading whitespace, one or more digits, a dot
      and a space, at the start of the line. */
  predicate IsOrderedMarker(line: string) {
    var t := LStrip(line);
    var k := LeadingDigits(t);
    1 <= k && k + 2 <= |t| && t[k] == '.' && t[k + 1] == ' '
  }

  /** `re.search(r"^\s*- ", line)`. */
  predicate IsUnorderedMarker(line: string) {
    StartsWith(LStrip(line), "- ")
  }

  /** Whether `line` opens a new item of a list of the given kind. */
  predicate IsItemStart(line: string, kind: ListKind) {
    match kind
    case Ordered => IsOrderedMarker(line)
    case Unordered => IsUnorderedMarker(line)
  }

  /** The language of `^\s*\d+\. ` read off the pattern: whitespace up to `j`, digits
      from `j` to `k`, then a dot and a space. */
  ghost predicate MatchesOrderedPattern(line: string) {
    exists j, k :: OrderedPatternAt(line, j, k)
  }

  /** `^\s*\d+\. ` matches with the whitespace ending at `j` and the digits at `k`. */
  predicate OrderedPatternAt(line: string, j: nat, k: nat) {
    j < k <= |line| - 2 && AllSpace(line[..j]) && AllDigits(line[j..k]) && line[k..k + 2] == ". "
  }

  /** The language of `^\s*- ` read off the pattern. */
  ghost predicate MatchesUnorderedPattern(line: string) {
    exists j :: DashPatternAt(line, j)
  }

  /** `^\s*- ` matches with the whitespace ending at `j`. */
  predicate DashPatternAt(line: string, j: nat) {
    j + 2 <= |line| && AllSpace(line[..j]) && line[j..j + 2] == "- "
  }

  lemma OrderedMarkerIsPattern(line: string)
    ensures IsOrderedMarker(line) <==> MatchesOrderedPattern(line)
  {
    if IsOrderedMarker(line) {
      OrderedMarkerMatches(line);
    }
    if MatchesOrderedPattern(line) {
      PatternMatchIsOrderedMarker(line);
    }
  }

  lemma OrderedMarkerMatches(line: string)
    requires IsOrderedMarker(line)
    ensures MatchesOrderedPattern(line)
  {
    var j := LeadingSpace(line);
    LStripSpec(line);
    var t := LStrip(line);
    var d := LeadingDigits(t);
    LeadingDigitsPrefix(t);
    var k := j + d;
    SliceOfDrop(line, j, 0, d);
    SliceOfDrop(line, j, d, d + 2);
    assert line[k..k + 2] == ". ";
    assert OrderedPatternAt(line, j, k);
  }

  lemma PatternMatchIsOrderedMarker(line: string)
    requires MatchesOrderedPattern(line)
    ensures IsOrderedMarker(line)
  {
    var j: nat, k: nat :| OrderedPatternAt(line, j, k);
    PatternPartsAreOrderedMarker(line, j, k);
  }

  lemma PatternPartsAreOrderedMarker(line: string, j: nat, k: nat)
    requires OrderedPatternAt(line, j, k)
    ensures IsOrderedMarker(line)
  {
    assert line[j] == line[j..k][0];
    LStripExact(line, j);
    var t := line[j..];
    var d := k - j;
    SliceOfDrop(line, j, 0, d);
    SliceOfDrop(line, j, d, d + 2);
    assert t[d] == t[d..d + 2][0];
    assert t[d + 1] == t[d..d + 2][1];
    LeadingDigitsOfPrefix(t, d);
  }

  lemma UnorderedMarkerIsPattern(line: string)
    ensures IsUnorderedMarker(line) <==> MatchesUnorderedPattern(line)
  {
    if IsUnorderedMarker(line) {
      var j := LeadingSpace(line);
      LStripSpec(line);
      SliceOfDrop(line, j, 0, 2);
      assert DashPatternAt(line, j);
    }
    if MatchesUnorderedPattern(line) {
      var j: nat :| DashPatternAt(line, j);
      assert line[j] == line[j..j + 2][0];
      LStripExact(line, j);
      SliceOfDrop(line, j, 0, 2);
    }
  }

  /** `_validate_first_element`. For an ordered list the unescaped, unanchored search
      for `1. `: a `1`, then any character but a line feed, then a space, anywhere in
      the element. For an unordered list the search for `-` anywhere in it. */
  predicate FirstElementOk(element: string, kind: ListKind) {
    match kind
    case Ordered =>
      exists i :: 0 <= i < |element| - 2 && element[i] == '1' && element[i + 1] != '\n' && element[i + 2] == ' '
    case Unordered => '-' in element
  }

  // ---------------------------------------------------------------------------
  // Merging the lines of wrapped items

  /** The lines that open a new item, in order. */
  function ItemStarts(lines: seq<string>, kind: ListKind): (r: seq<string>)
    ensures |r| <= |lines|
  {
    if lines == [] then []
    else
      var line := lines[|lines| - 1];
      ItemStarts(lines[..|lines| - 1], kind) + (if IsItemStart(line, kind) then [line] else [])
  }

  /** The items built from a first item and the lines after it: a line that opens an
      item is a new item, any other line is glued to the last item after one space.
      There is one item more than there are item-opening lines. */
  function MergeItems(first: string, lines: seq<string>, kind: ListKind): (items: seq<string>)
    ensures |items| == 1 + |ItemStarts(lines, kind)|
    decreases |lines|
  {
    if lines == [] then [first]
    else
      var items := MergeItems(first, lines[..|lines| - 1], kind);
      var line := lines[|lines| - 1];
      if IsItemStart(line, kind) then items + [line]
      else items[..|items| - 1] + [items[|items| - 1] + " " + line]
  }

  /** `_merge_multiline_elements`: `None` when the first element fails the first-element
      search, otherwise the merged items. */
  method MergeMultilineElements(elements: seq<string>, kind: ListKind) returns (merged: Option<seq<string>>)
    requires |elements| > 0
    ensures merged.None? <==> !FirstElementOk(elements[0], kind)
    ensures merged.Some? ==> merged.value == MergeItems(elements[0], elements[1..], kind)
  {
    var first := elements[0];
    var rest := elements[1..];
    if !FirstElementOk(first, kind) {
      return None;
    }
    var items := [first];
    for i := 0 to |rest|
      invariant items == MergeItems(first, rest[..i], kind)
    {
      TakePrefix(rest, i, i + 1);
      var line := rest[i];
      if IsItemStart(line, kind) {
        items := items + [line];
      } else {
        items := items[..|items| - 1] + [items[|items| - 1] + " " + line];
      }
    }
    assert rest[..|rest|] == rest;
    return Some(items);
  }

  /** One more line opening an item adds an item: one step of `MergeItems`, stated
      on `lines + [line]` so that the inductive proofs below can use it. */
  lemma MergeOpening(first: string, lines: seq<string>, line: string, kind: ListKind)
    requires IsItemStart(line, kind)
    ensures MergeItems(first, lines + [line], kind) == MergeItems(first, lines, kind) + [line]
  {
    DropLast(lines, line);
  }

  /** One more line that opens no item is glued to the last item after one space: the
      other step of `MergeItems`, stated on `lines + [line]`. */
  lemma MergeContinuation(first: string, lines: seq<string>, line: string, kind: ListKind)
    requires !IsItemStart(line, kind)
    ensures var items := MergeItems(first, lines, kind);
            MergeItems(first, lines + [line], kind) == items[..|items| - 1] + [items[|items| - 1] + " " + line]
  {
    DropLast(lines, line);
  }

  /** Lines that all open items each add an item of their own. */
  lemma {:induction false} MergeOpenings(first: string, lines: seq<string>, extra: seq<string>, kind: ListKind)
    requires forall k :: 0 <= k < |extra| ==> IsItemStart(extra[k], kind)
    ensures MergeItems(first, lines + extra, kind) == MergeItems(first, lines, kind) + extra
    decreases |extra|
  {
    if extra == [] {
      AppendEmpty(lines);
      AppendEmpty(MergeItems(first, lines, kind));
    } else {
      var init := extra[..|extra| - 1];
      var last := extra[|extra| - 1];
      MergeOpenings(first, lines, init, kind);
      InitLast(extra);
      Assoc(lines, init, [last]);
      MergeOpening(first, lines + init, last, kind);
      Assoc(MergeItems(first, lines, kind), init, [last]);
    }
  }

  /** Each item starts with the head of the same index. */
  predicate StartWithHeads(items: seq<string>, heads: seq<string>) {
    |items| == |heads| && forall j :: 0 <= j < |items| ==> StartsWith(items[j], heads[j])
  }

  lemma ExtendLastKeepsHeads(items: seq<string>, heads: seq<string>, x: string)
    requires StartWithHeads(items, heads) && items != []
    ensures StartWithHeads(items[..|items| - 1] + [items[|items| - 1] + x], heads)
  {
    var n := |items|;
    StartsWithAppend(items[n - 1], heads[n - 1], x);
  }

  lemma AppendKeepsHeads(items: seq<string>, heads: seq<string>, line: string)
    requires StartWithHeads(items, heads)
    ensures StartWithHeads(items + [line], heads + [line])
  {
    assert line[..|line|] == line;
  }

  /** Each merged item begins with the line that opened it. */
  lemma {:induction false} MergeItemsStartWithOpeningLines(first: string, lines: seq<string>, kind: ListKind)
    ensures StartWithHeads(MergeItems(first, lines, kind), [first] + ItemStarts(lines, kind))
    decreases |lines|
  {
    if lines == [] {
      assert first[..|first|] == first;
    } else {
      var init := lines[..|lines| - 1];
      var line := lines[|lines| - 1];
      MergeItemsStartWithOpeningLines(first, init, kind);
      var items := MergeItems(first, init, kind);
      var heads := [first] + ItemStarts(init, kind);
      if IsItemStart(line, kind) {
        assert MergeItems(first, lines, kind) == items + [line];
        assert [first] + ItemStarts(lines, kind) == heads + [line] by {
          assert ItemStarts(lines, kind) == ItemStarts(init, kind) + [line];
          ConsSnoc(first, ItemStarts(init, kind), line);
        }
        AppendKeepsHeads(items, heads, line);
      } else {
        assert ItemStarts(lines, kind) == ItemStarts(init, kind);
        ExtendLastKeepsHeads(items, heads, " ");
        var mid := items[..|items| - 1] + [items[|items| - 1] + " "];
        ExtendLastKeepsHeads(mid, heads, line);
        assert mid[..|mid| - 1] == items[..|items| - 1];
      }
    }
  }

  /** When every line opens an item nothing is merged: the items are the lines. */
  lemma {:induction false} MergeItemsAllStarts(first: string, lines: seq<string>, kind: ListKind)
    requires forall k :: 0 <= k < |lines| ==> IsItemStart(lines[k], kind)
    ensures MergeItems(first, lines, kind) == [first] + lines
    decreases |lines|
  {
    if lines != [] {
      var init := lines[..|lines| - 1];
      MergeItemsAllStarts(first, init, kind);
      assert [first] + init + [lines[|lines| - 1]] == [first] + lines;
    }
  }

  /** Each stripped item of `after` starts with the stripped item of `before` at the
      same index. */
  predicate KeepsStrippedPrefixes(after: seq<string>, before: seq<string>) {
    |after| == |before| && forall j :: 0 <= j < |before| ==> StartsWith(Strip(after[j]), Strip(before[j]))
  }

  lemma KeepsStrippedPrefixesRefl(items: seq<string>)
    ensures KeepsStrippedPrefixes(items, items)
  {
    forall j | 0 <= j < |items| ensures StartsWith(Strip(items[j]), Strip(items[j])) {
      assert Strip(items[j])[..|Strip(items[j])|] == Strip(items[j]);
    }
  }

  lemma ExtendLastKeepsStrippedPrefixes(items: seq<string>, before: seq<string>, x: string)
    requires KeepsStrippedPrefixes(items, before) && items != []
    ensures KeepsStrippedPrefixes(items[..|items| - 1] + [items[|items| - 1] + x], before)
  {
    var n := |items|;
    var after := items[..n - 1] + [items[n - 1] + x];
    StripAppendKeepsPrefix(items[n - 1], x, Strip(before[n - 1]));
    forall j | 0 <= j < |before| ensures StartsWith(Strip(after[j]), Strip(before[j])) {
      if j < n - 1 {
        assert after[j] == items[j];
      } else {
        assert after[j] == items[n - 1] + x;
      }
    }
  }

  /** Wrapping the text of the last item over more lines, none of which opens an item,
      keeps the number of items, and the stripped form of every item still begins with
      what it began with before. */
  lemma {:induction false} ContinuationKeepsItems(first: string, lines: seq<string>, extra: seq<string>, kind: ListKind)
    requires forall k :: 0 <= k < |extra| ==> !IsItemStart(extra[k], kind)
    ensures KeepsStrippedPrefixes(MergeItems(first, lines + extra, kind), MergeItems(first, lines, kind))
    decreases |extra|
  {
    var before := MergeItems(first, lines, kind);
    if extra == [] {
      assert lines + extra == lines;
      KeepsStrippedPrefixesRefl(before);
    } else {
      var init := extra[..|extra| - 1];
      var line := extra[|extra| - 1];
      ContinuationKeepsItems(first, lines, init, kind);
      var mid := MergeItems(first, lines + init, kind);
      assert (lines + extra)[..|lines + extra| - 1] == lines + init;
      assert (lines + extra)[|lines + extra| - 1] == line;
      assert !IsItemStart(line, kind);
      ExtendLastKeepsStrippedPrefixes(mid, before, " ");
      var mid' := mid[..|mid| - 1] + [mid[|mid| - 1] + " "];
      ExtendLastKeepsStrippedPrefixes(mid', before, line);
      assert mid'[..|mid'| - 1] == mid[..|mid| - 1];
    }
  }

  // ---------------------------------------------------------------------------
  // Wrapping an item over lines inserted anywhere after the first item line

  /** The text a run of lines that open no item adds to the item they wrap: each line
      after one space. */
  function Glue(lines: seq<string>): (g: string)
    ensures g == [] || g[0] == ' '
    decreases |lines|
  {
    if lines == [] then []
    else Glue(lines[..|lines| - 1]) + " " + lines[|lines| - 1]
  }

  lemma {:induction false} GlueAppend(a: seq<string>, b: seq<string>)
    ensures Glue(a + b) == Glue(a) + Glue(b)
    decreases |b|
  {
    if b == [] {
      AppendEmpty(a);
      AppendEmpty(Glue(a));
    } else {
      var init := b[..|b| - 1];
      var line := b[|b| - 1];
      GlueAppend(a, init);
      assert (a + b)[..|a + b| - 1] == a + init;
      assert (a + b)[|a + b| - 1] == line;
      Assoc(Glue(a), Glue(init), " ");
      Assoc(Glue(a), Glue(init) + " ", line);
    }
  }

  /** A run of lines that open no item is glued to the last item. */
  lemma {:induction false} MergeGlued(first: string, lines: seq<string>, cont: seq<string>, kind: ListKind)
    requires forall k :: 0 <= k < |cont| ==> !IsItemStart(cont[k], kind)
    ensures var items := MergeItems(first, lines, kind);
            MergeItems(first, lines + cont, kind) == items[..|items| - 1] + [items[|items| - 1] + Glue(cont)]
    decreases |cont|
  {
    var items := MergeItems(first, lines, kind);
    var n := |items|;
    if cont == [] {
      AppendEmpty(lines);
      AppendEmpty(items[n - 1]);
      InitLast(items);
    } else {
      var init := cont[..|cont| - 1];
      var line := cont[|cont| - 1];
      MergeGlued(first, lines, init, kind);
      var mid := items[..n - 1] + [items[n - 1] + Glue(init)];
      InitLast(cont);
      Assoc(lines, init, [line]);
      MergeContinuation(first, lines + init, line, kind);
      assert mid[..|mid| - 1] == items[..n - 1];
      Assoc(items[n - 1], Glue(init), " ");
      Assoc(items[n - 1], Glue(init) + " ", line);
    }
  }

  lemma ExtendLastOfAppend(a: seq<string>, b: seq<string>, x: string)
    requires b != []
    ensures (a + b)[..|a + b| - 1] + [(a + b)[|a + b| - 1] + x] == a + (b[..|b| - 1] + [b[|b| - 1] + x])
  {
    assert (a + b)[..|a + b| - 1] == a + b[..|b| - 1];
    assert (a + b)[|a + b| - 1] == b[|b| - 1];
    Assoc(a, b[..|b| - 1], [b[|b| - 1] + x]);
  }

  /** When the items of `lines` end with the items of a list of their own, one more
      line extends both alike. */
  lemma MergeStepBoth(first: string, lines: seq<string>, head: string, more: seq<string>, a: seq<string>, line: string, kind: ListKind)
    requires MergeItems(first, lines, kind) == a + MergeItems(head, more, kind)
    ensures MergeItems(first, lines + [line], kind) == a + MergeItems(head, more + [line], kind)
  {
    var b := MergeItems(head, more, kind);
    if IsItemStart(line, kind) {
      MergeOpening(first, lines, line, kind);
      MergeOpening(head, more, line, kind);
      Assoc(a, b, [line]);
    } else {
      MergeContinuation(first, lines, line, kind);
      MergeContinuation(head, more, line, kind);
      ExtendLastOfAppend(a, b, " " + line);
      Assoc(b[|b| - 1], " ", line);
      Assoc((a + b)[|a + b| - 1], " ", line);
    }
  }

  /** From a line that opens an item on, the items are merged as a list of their own
      that starts with that line. */
  lemma {:induction false} MergeFromStart(first: string, lines: seq<string>, rest: seq<string>, kind: ListKind)
    requires rest != [] && IsItemStart(rest[0], kind)
    ensures MergeItems(first, lines + rest, kind) == MergeItems(first, lines, kind) + MergeItems(rest[0], rest[1..], kind)
    decreases |rest|
  {
    if |rest| == 1 {
      assert rest == [rest[0]] && rest[1..] == [];
      MergeOpening(first, lines, rest[0], kind);
    } else {
      var init := rest[..|rest| - 1];
      var line := rest[|rest| - 1];
      MergeFromStart(first, lines, init, kind);
      MergeStepBoth(first, lines + init, rest[0], init[1..], MergeItems(first, lines, kind), line, kind);
      assert lines + rest == (lines + init) + [line] by {
        InitLast(rest);
        Assoc(lines, init, [line]);
      }
      TailOfInit(rest);
    }
  }

  /** The number of lines at the front of `lines` before the first one that opens an
      item. */
  function ContinuationRun(lines: seq<string>, kind: ListKind): (r: nat)
    ensures r <= |lines|
    ensures forall k :: 0 <= k < r ==> !IsItemStart(lines[k], kind)
    ensures r < |lines| ==> IsItemStart(lines[r], kind)
    decreases |lines|
  {
    if lines == [] || IsItemStart(lines[0], kind) then 0
    else 1 + ContinuationRun(lines[1..], kind)
  }

  /** Lines `a`, then lines `x` that open no item, then lines `d` that are empty or
      start with an item line: the last item of `a` is wrapped over `x` and the items
      of `d` follow. */
  lemma MergeRunThenStart(first: string, a: seq<string>, x: seq<string>, d: seq<string>, kind: ListKind)
    requires forall k :: 0 <= k < |x| ==> !IsItemStart(x[k], kind)
    requires d == [] || IsItemStart(d[0], kind)
    ensures var items := MergeItems(first, a, kind);
            MergeItems(first, a + x + d, kind) ==
              (items[..|items| - 1] + [items[|items| - 1] + Glue(x)]) + (if d == [] then [] else MergeItems(d[0], d[1..], kind))
  {
    MergeGlued(first, a, x, kind);
    if d == [] {
      AppendEmpty(a + x);
      AppendEmpty(MergeItems(first, a + x, kind));
    } else {
      MergeFromStart(first, a + x, d, kind);
    }
  }

  /** The items of `a + rest`: the last item of `a` wrapped over the lines of `rest`
      before its first item line, then the items that line opens. */
  lemma MergeAtRun(first: string, a: seq<string>, rest: seq<string>, kind: ListKind)
    ensures var items := MergeItems(first, a, kind);
            var r := ContinuationRun(rest, kind);
            var d := rest[r..];
            MergeItems(first, a + rest, kind) ==
              (items[..|items| - 1] + [items[|items| - 1] + Glue(rest[..r])]) + (if d == [] then [] else MergeItems(d[0], d[1..], kind))
  {
    var r := ContinuationRun(rest, kind);
    var c := rest[..r];
    var d := rest[r..];
    assert rest == c + d;
    Assoc(a, c, d);
    MergeRunThenStart(first, a, c, d, kind);
  }

  /** The same with lines that open no item put in front of `rest`: they join the
      run that wraps the last item of `a`. */
  lemma MergeAtRunAfter(first: string, a: seq<string>, extra: seq<string>, rest: seq<string>, kind: ListKind)
    requires forall k :: 0 <= k < |extra| ==> !IsItemStart(extra[k], kind)
    ensures var items := MergeItems(first, a, kind);
            var r := ContinuationRun(rest, kind);
            var d := rest[r..];
            MergeItems(first, a + extra + rest, kind) ==
              (items[..|items| - 1] + [items[|items| - 1] + Glue(extra + rest[..r])]) + (if d == [] then [] else MergeItems(d[0], d[1..], kind))
  {
    var r := ContinuationRun(rest, kind);
    var c := rest[..r];
    var d := rest[r..];
    assert a + extra + rest == a + (extra + c) + d by {
      assert rest == c + d;
      Assoc(a, extra, c + d);
      Assoc(extra, c, d);
      Assoc(a, extra + c, d);
    }
    assert forall k :: 0 <= k < |extra + c| ==> !IsItemStart((extra + c)[k], kind);
    MergeRunThenStart(first, a, extra + c, d, kind);
  }

  /** Lines that open no item, inserted after the first `p` lines, wrap the item those
      `p` lines end in: its text before the lines that already continue it grows by
      the inserted text, and every other item stays as it was. */
  lemma InsertedContinuations(first: string, lines: seq<string>, p: nat, extra: seq<string>, kind: ListKind)
    requires p <= |lines|
    requires forall k :: 0 <= k < |extra| ==> !IsItemStart(extra[k], kind)
    ensures var items := MergeItems(first, lines[..p], kind);
            var n := |items|;
            var t := Glue(lines[p..][..ContinuationRun(lines[p..], kind)]);
            var before := MergeItems(first, lines, kind);
            var after := MergeItems(first, lines[..p] + extra + lines[p..], kind);
            |after| == |before| && n <= |before| &&
            before[n - 1] == items[n - 1] + t && after[n - 1] == items[n - 1] + Glue(extra) + t &&
            forall j :: 0 <= j < |before| && j != n - 1 ==> after[j] == before[j]
  {
    var a := lines[..p];
    var rest := lines[p..];
    var r := ContinuationRun(rest, kind);
    var c := rest[..r];
    var d := rest[r..];
    var items := MergeItems(first, a, kind);
    var n := |items|;
    var tail := if d == [] then [] else MergeItems(d[0], d[1..], kind);
    assert MergeItems(first, lines, kind) == (items[..n - 1] + [items[n - 1] + Glue(c)]) + tail by {
      assert lines == a + rest;
      MergeAtRun(first, a, rest, kind);
    }
    assert MergeItems(first, a + extra + rest, kind) == (items[..n - 1] + [items[n - 1] + Glue(extra + c)]) + tail by {
      MergeAtRunAfter(first, a, extra, rest, kind);
    }
    GlueAppend(extra, c);
    Assoc(items[n - 1], Glue(extra), Glue(c));
    LastTwoWays(items, Glue(c), Glue(extra + c), tail);
  }

  /** Two lists that extend the last of `items` in two ways and go on alike differ
      only at that item. */
  lemma LastTwoWays(items: seq<string>, x: string, y: string, tail: seq<string>)
    requires items != []
    ensures var n := |items|;
            var before := (items[..n - 1] + [items[n - 1] + x]) + tail;
            var after := (items[..n - 1] + [items[n - 1] + y]) + tail;
            |after| == |before| && n <= |before| && before[n - 1] == items[n - 1] + x && after[n - 1] == items[n - 1] + y &&
            forall j :: 0 <= j < |before| && j != n - 1 ==> after[j] == before[j]
  {
  }

  /** Every line `ItemStarts` collects opens an item. */
  lemma {:induction false} ItemStartsOpenItems(lines: seq<string>, kind: ListKind)
    ensures forall k :: 0 <= k < |ItemStarts(lines, kind)| ==> IsItemStart(ItemStarts(lines, kind)[k], kind)
    decreases |lines|
  {
    if lines != [] {
      ItemStartsOpenItems(lines[..|lines| - 1], kind);
    }
  }

  /** No merged item of a list whose first line passes the first-element check is
      blank: each begins with a line that has a character that is not whitespace. */
  lemma MergedItemNotBlank(first: string, lines: seq<string>, kind: ListKind, j: nat)
    requires FirstElementOk(first, kind) && j < |MergeItems(first, lines, kind)|
    ensures !AllSpace(MergeItems(first, lines, kind)[j])
  {
    var items := MergeItems(first, lines, kind);
    var heads := [first] + ItemStarts(lines, kind);
    MergeItemsStartWithOpeningLines(first, lines, kind);
    var h := heads[j];
    assert !AllSpace(h) by {
      if j == 0 {
        if kind.Ordered? {
          var i :| 0 <= i < |first| - 2 && first[i] == '1' && first[i + 1] != '\n' && first[i + 2] == ' ';
          assert !IsSpace(h[i]);
        } else {
          var i :| 0 <= i < |first| && first[i] == '-';
          assert !IsSpace(h[i]);
        }
      } else {
        ItemStartsOpenItems(lines, kind);
        assert IsItemStart(h, kind);
        assert LStrip(h) != [];
        LStripNonEmpty(h);
      }
    }
    NonBlankPrefix(items[j], h);
  }

  /** A prefix whose only space is its last character, such as `3. ` or `- `. */
  predicate SpaceEnded(p: string) {
    p != [] && p[|p| - 1] == ' ' && forall i :: 0 <= i < |p| - 1 ==> p[i] != ' '
  }

  /** Lines that open no item, inserted after an item line of a list whose first line
      passes the first-element check, keep every prefix of a stripped item whose only
      space is its last character: the check of item `j` passes afterwards if it
      passed before. */
  lemma InsertedContinuationsKeepPrefix(first: string, lines: seq<string>, p: nat, extra: seq<string>, kind: ListKind, j: nat, prefix: string)
    requires FirstElementOk(first, kind) && p <= |lines|
    requires forall k :: 0 <= k < |extra| ==> !IsItemStart(extra[k], kind)
    requires SpaceEnded(prefix)
    requires j < |MergeItems(first, lines, kind)| && StartsWith(Strip(MergeItems(first, lines, kind)[j]), prefix)
    ensures var after := MergeItems(first, lines[..p] + extra + lines[p..], kind);
            j < |after| && StartsWith(Strip(after[j]), prefix)
  {
    InsertedContinuations(first, lines, p, extra, kind);
    var items := MergeItems(first, lines[..p], kind);
    var n := |items|;
    if j == n - 1 {
      var t := Glue(lines[p..][..ContinuationRun(lines[p..], kind)]);
      MergedItemNotBlank(first, lines[..p], kind, n - 1);
      StripInsertKeepsPrefix(items[n - 1], Glue(extra), t, prefix);
    }
  }

  // ---------------------------------------------------------------------------
  // The chunk validators

  /** The numbering check on the `i`-th item (1-based): `item.strip().startswith(f"{i}. ")`. */
  predicate NumberedAs(item: string, i: nat) {
    StartsWith(Strip(item), NatToString(i) + ". ")
  }

  /** The dash check on an item: `item.strip().startswith("- ")`. */
  predicate Dashed(item: string) {
    StartsWith(Strip(item), "- ")
  }

  /** The error `validate_ordered_list` reports, stated on the merged items: `E111`
      without an item line, `E112` when the first item has no `1. `, `E113` when
      some item `i` is not numbered `i`, and none otherwise. */
  function OrderedListError(content: seq<string>, section: string): Option<ValidationError> {
    if |content| < 2 then Some(E111(section))
    else if !FirstElementOk(content[1], Ordered) then Some(E112(section))
    else
      var items := MergeItems(content[1], content[2..], Ordered);
      if AllNumbered(items) then None
      else Some(E113(section))
  }

  /** The error `validate_unordered_list` reports: `E121` without an item line, `E122`
      when the first item has no `-`, `E123` when some merged item does not start with
      `- `, and none otherwise. */
  function UnorderedListError(content: seq<string>, section: string): Option<ValidationError> {
    if |content| < 2 then Some(E121(section))
    else if !FirstElementOk(content[1], Unordered) then Some(E122(section))
    else
      var items := MergeItems(content[1], content[2..], Unordered);
      if AllDashed(items) then None
      else Some(E123(section))
  }

  /** Every item `i` (1-based) is numbered `i`. */
  predicate AllNumbered(items: seq<string>) {
    forall j :: 0 <= j < |items| ==> NumberedAs(items[j], j + 1)
  }

  /** Every item starts with a dash. */
  predicate AllDashed(items: seq<string>) {
    forall j :: 0 <= j < |items| ==> Dashed(items[j])
  }

  /** The numbering loop of `validate_ordered_list`, which stops at the first wrongly
      numbered item. */
  method CheckNumbering(items: seq<string>) returns (ok: bool)
    ensures ok <==> AllNumbered(items)
  {
    for i := 0 to |items|
      invariant forall j :: 0 <= j < i ==> NumberedAs(items[j], j + 1)
    {
      if !NumberedAs(items[i], i + 1) {
        return false;
      }
    }
    return true;
  }

  /** The dash loop of `validate_unordered_list`, which stops at the first item without
      a leading dash. */
  method CheckDashes(items: seq<string>) returns (ok: bool)
    ensures ok <==> AllDashed(items)
  {
    for i := 0 to |items|
      invariant forall j :: 0 <= j < i ==> Dashed(items[j])
    {
      if !Dashed(items[i]) {
        return false;
      }
    }
    return true;
  }

  /** `validate_ordered_list`. */
  method ValidateOrderedList(content: seq<string>, section: string) returns (error: Option<ValidationError>)
    ensures error == OrderedListError(content, section)
  {
    if |content| < 2 {
      return Some(E111(section));
    }
    var elements := content[1..];
    var merged := MergeMultilineElements(elements, Ordered);
    if merged.None? {
      return Some(E112(section));
    }
    assert elements[1..] == content[2..];
    var ok := CheckNumbering(merged.value);
    if !ok {
      return Some(E113(section));
    }
    return None;
  }

  /** `validate_unordered_list`. */
  method ValidateUnorderedList(content: seq<string>, section: string) returns (error: Option<ValidationError>)
    ensures error == UnorderedListError(content, section)
  {
    if |content| < 2 {
      return Some(E121(section));
    }
    var elements := content[1..];
    var merged := MergeMultilineElements(elements, Unordered);
    if merged.None? {
      return Some(E122(section));
    }
    assert elements[1..] == content[2..];
    var ok := CheckDashes(merged.value);
    if !ok {
      return Some(E123(section));
    }
    return None;
  }

  /** `validate_paragraph`: free text is never wrong. */
  function ValidateParagraph(content: seq<string>, section: string): (error: Option<ValidationError>)
    ensures error == None
  {
    None
  }

  /** `<digits>. ` has no space before its last character. */
  lemma NumberPrefixSpaceEnded(i: nat)
    ensures SpaceEnded(NatToString(i) + ". ")
  {
    var d := NatToString(i);
    NatToStringDigits(i);
    var q := d + ". ";
    forall k | 0 <= k < |q| - 1 ensures q[k] != ' ' {
      if k < |d| {
        assert q[k] == d[k];
        assert IsDigit(d[k]);
      }
    }
  }

  lemma DashSpaceEnded()
    ensures SpaceEnded("- ")
  {
    var d := "- ";
    assert |d| == 2 && d[0] == '-';
  }

  /** Lines that open no item, inserted after an item line, keep every item numbered. */
  lemma InsertedKeepsNumbered(first: string, lines: seq<string>, p: nat, extra: seq<string>)
    requires FirstElementOk(first, Ordered) && p <= |lines|
    requires forall k :: 0 <= k < |extra| ==> !IsOrderedMarker(extra[k])
    requires AllNumbered(MergeItems(first, lines, Ordered))
    ensures AllNumbered(MergeItems(first, lines[..p] + extra + lines[p..], Ordered))
  {
    InsertedContinuations(first, lines, p, extra, Ordered);
    var after := MergeItems(first, lines[..p] + extra + lines[p..], Ordered);
    forall j | 0 <= j < |after| ensures NumberedAs(after[j], j + 1) {
      NumberPrefixSpaceEnded(j + 1);
      InsertedContinuationsKeepPrefix(first, lines, p, extra, Ordered, j, NatToString(j + 1) + ". ");
    }
  }

  /** Lines that open no item, inserted after an item line, keep every item dashed. */
  lemma InsertedKeepsDashed(first: string, lines: seq<string>, p: nat, extra: seq<string>)
    requires FirstElementOk(first, Unordered) && p <= |lines|
    requires forall k :: 0 <= k < |extra| ==> !IsUnorderedMarker(extra[k])
    requires AllDashed(MergeItems(first, lines, Unordered))
    ensures AllDashed(MergeItems(first, lines[..p] + extra + lines[p..], Unordered))
  {
    InsertedContinuations(first, lines, p, extra, Unordered);
    var after := MergeItems(first, lines[..p] + extra + lines[p..], Unordered);
    DashSpaceEnded();
    forall j | 0 <= j < |after| ensures Dashed(after[j]) {
      InsertedContinuationsKeepPrefix(first, lines, p, extra, Unordered, j, "- ");
    }
  }

  /** Wrapping an item of a valid ordered list over more lines that do not look like
      `<digits>. `, inserted anywhere after the first item line, keeps the list valid. */
  lemma WrappedOrderedListStaysValid(content: seq<string>, p: nat, extra: seq<string>, section: string)
    requires OrderedListError(content, section) == None
    requires 2 <= p <= |content|
    requires forall k :: 0 <= k < |extra| ==> !IsOrderedMarker(extra[k])
    ensures OrderedListError(content[..p] + extra + content[p..], section) == None
  {
    var c := content[..p] + extra + content[p..];
    var lines := content[2..];
    InsertAt(content, p, extra, 2);
    assert FirstElementOk(content[1], Ordered) && AllNumbered(MergeItems(content[1], lines, Ordered));
    assert AllNumbered(MergeItems(c[1], c[2..], Ordered)) by {
      InsertedKeepsNumbered(content[1], lines, p - 2, extra);
    }
  }

  /** Wrapping an item of a valid unordered list over more lines that do not start
      with `- `, inserted anywhere after the first item line, keeps the list valid. */
  lemma WrappedUnorderedListStaysValid(content: seq<string>, p: nat, extra: seq<string>, section: string)
    requires UnorderedListError(content, section) == None
    requires 2 <= p <= |content|
    requires forall k :: 0 <= k < |extra| ==> !IsUnorderedMarker(extra[k])
    ensures UnorderedListError(content[..p] + extra + content[p..], section) == None
  {
    var c := content[..p] + extra + content[p..];
    var lines := content[2..];
    InsertAt(content, p, extra, 2);
    assert FirstElementOk(content[1], Unordered) && AllDashed(MergeItems(content[1], lines, Unordered));
    assert AllDashed(MergeItems(c[1], c[2..], Unordered)) by {
      InsertedKeepsDashed(content[1], lines, p - 2, extra);
    }
  }

  lemma NumberedLineOpensItem(line: string, n: nat)
    requires IsStripped(line) && StartsWith(line, NatToString(n) + ". ")
    ensures IsOrderedMarker(line) && Strip(line) == line
  {
    var d := NatToString(n);
    var p := d + ". ";
    NatToStringDigits(n);
    StrippedIsFixed(line);
    forall i | 0 <= i < |d| ensures IsDigit(line[i]) {
      StartsWithAt(line, p, i);
    }
    StartsWithAt(line, p, |d|);
    StartsWithAt(line, p, |d| + 1);
    LeadingDigitsExact(line, |d|);
  }

  /** A list whose `k`-th line (after the header) is stripped and starts with `k. `
      passes the ordered-list validator. */
  lemma NumberedListAccepted(content: seq<string>, section: string)
    requires |content| >= 2
    requires forall k :: 1 <= k < |content| ==> IsStripped(content[k]) && StartsWith(content[k], NatToString(k) + ". ")
    ensures OrderedListError(content, section) == None
  {
    assert NatToString(1) == "1";
    assert content[1][..3] == "1. ";
    assert content[1][0] == '1' && content[1][1] != '\n' && content[1][2] == ' ';
    var lines := content[2..];
    forall k | 0 <= k < |lines| ensures IsItemStart(lines[k], Ordered) {
      NumberedLineOpensItem(content[k + 2], k + 2);
    }
    MergeItemsAllStarts(content[1], lines, Ordered);
    var items := MergeItems(content[1], lines, Ordered);
    assert items == content[1..];
    forall j | 0 <= j < |items| ensures NumberedAs(items[j], j + 1) {
      StrippedIsFixed(content[j + 1]);
    }
  }

  /** A list whose lines after the header are stripped and start with `- ` passes the
      unordered-list validator. */
  lemma DashedListAccepted(content: seq<string>, section: string)
    requires |content| >= 2
    requires forall k :: 1 <= k < |content| ==> IsStripped(content[k]) && StartsWith(content[k], "- ")
    ensures UnorderedListError(content, section) == None
  {
    assert content[1][0] == '-';
    var lines := content[2..];
    forall k | 0 <= k < |lines| ensures IsItemStart(lines[k], Unordered) {
      StrippedIsFixed(lines[k]);
    }
    MergeItemsAllStarts(content[1], lines, Unordered);
    assert MergeItems(content[1], lines, Unordered) == content[1..];
    forall j | 1 <= j < |content| ensures Dashed(content[j]) {
      StrippedIsFixed(content[j]);
    }
  }

  /** With stripped lines (the only lines a parsed docstring holds) every item after the
      first opens with `- ` and passes the dash check, so `E123` can only come from the
      first item. */
  lemma DashErrorOnlyOnFirstItem(content: seq<string>, section: string)
    requires |content| >= 2 && FirstElementOk(content[1], Unordered)
    requires forall k :: 0 <= k < |content| ==> IsStripped(content[k])
    ensures var items := MergeItems(content[1], content[2..], Unordered);
            forall j :: 1 <= j < |items| ==> Dashed(items[j])
    ensures var items := MergeItems(content[1], content[2..], Unordered);
            UnorderedListError(content, section) == Some(E123(section)) <==> !Dashed(items[0])
  {
    var lines := content[2..];
    var items := MergeItems(content[1], lines, Unordered);
    var heads := [content[1]] + ItemStarts(lines, Unordered);
    MergeItemsStartWithOpeningLines(content[1], lines, Unordered);
    ItemStartsAreStripped(lines, Unordered);
    forall j | 1 <= j < |items| ensures Dashed(items[j]) {
      var h := heads[j];
      assert h == ItemStarts(lines, Unordered)[j - 1];
      StrippedIsFixed(h);
      assert items[j] == h + items[j][|h|..];
      StripAppendKeepsPrefix(h, items[j][|h|..], "- ");
    }
  }

  lemma {:induction false} ItemStartsAreStripped(lines: seq<string>, kind: ListKind)
    requires forall k :: 0 <= k < |lines| ==> IsStripped(lines[k])
    ensures forall k :: 0 <= k < |ItemStarts(lines, kind)| ==>
              IsStripped(ItemStarts(lines, kind)[k]) && IsItemStart(ItemStarts(lines, kind)[k], kind)
    decreases |lines|
  {
    if lines != [] {
      ItemStartsAreStripped(lines[..|lines| - 1], kind);
    }
  }

  /** Without the stripping a parsed docstring applies, a later item can fail the dash
      check: the item `- ` opens an item but strips to `-`. */
  lemma UnstrippedLaterItemFailsDash()
    ensures IsUnorderedMarker("- ") && !Dashed("- ") && Dashed("- a")
    ensures MergeItems("- a", ["- "], Unordered) == ["- a", "- "]
    ensures UnorderedListError(["Pass criteria:", "- a", "- "], "Pass Criteria") == Some(E123("Pass Criteria"))
  {
    var content := ["Pass criteria:", "- a", "- "];
    assert '-' == content[1][0];
    assert LStrip("- ") == "- ";
    assert IsUnorderedMarker("- ");
    assert content[2..] == ["- "];
    MergeOpening("- a", [], "- ", Unordered);
    assert [] + ["- "] == ["- "];
    assert Strip("- a") == "- a";
    assert RStrip("- ") == "-";
    assert Strip("- ") == "-";
    var items := MergeItems(content[1], content[2..], Unordered);
    assert items == ["- a", "- "];
    assert '-' in content[1];
    assert !Dashed(items[1]);
  }

  // ---------------------------------------------------------------------------
  // The occurrence validator

  /** An occurrence bound: a number, or no bound at all (the source's `float("inf")`). */
  datatype Bound = Finite(n: nat) | Unbounded

  /** How `f"{max}"` prints a bound. */
  function BoundToString(b: Bound): string {
    match b
    case Finite(n) => NatToString(n)
    case Unbounded => "inf"
  }

  /** `actual > max`. */
  predicate Exceeds(actual: nat, max: Bound) {
    match max
    case Finite(n) => actual > n
    case Unbounded => false
  }

  /** The allowed number of sections of one kind, both ends inclusive. */
  datatype Range = Range(min: nat, max: Bound)

  /** One `kind: dict(min=..., max=...)` item of a schema; a schema lists them in order. */
  datatype SchemaEntry = SchemaEntry(kind: ChunkKind, range: Range)

  function SchemaKinds(schema: seq<SchemaEntry>): set<ChunkKind> {
    set i | 0 <= i < |schema| :: schema[i].kind
  }

  /** The number of chunks of the given kind. */
  function Count(chunks: seq<Chunk>, kind: ChunkKind): (n: nat)
    ensures n <= |chunks|
  {
    if chunks == [] then 0
    else Count(chunks[..|chunks| - 1], kind) + (if chunks[|chunks| - 1].kind == kind then 1 else 0)
  }

  /** Counting is additive over concatenation. */
  lemma {:induction false} CountAppend(a: seq<Chunk>, b: seq<Chunk>, kind: ChunkKind)
    ensures Count(a + b, kind) == Count(a, kind) + Count(b, kind)
    decreases |b|
  {
    if b == [] {
      AppendEmpty(a);
    } else {
      var init := b[..|b| - 1];
      CountAppend(a, init, kind);
      InitLast(b);
      Assoc(a, init, [b[|b| - 1]]);
      DropLast(a + init, b[|b| - 1]);
    }
  }

  /** When every chunk has the same kind, that kind counts them all and every other
      kind counts none. */
  lemma {:induction false} CountOfUniform(chunks: seq<Chunk>, kind: ChunkKind, other: ChunkKind)
    requires forall i :: 0 <= i < |chunks| ==> chunks[i].kind == kind
    requires other != kind
    ensures Count(chunks, kind) == |chunks| && Count(chunks, other) == 0
    decreases |chunks|
  {
    if chunks != [] {
      var init := chunks[..|chunks| - 1];
      assert forall i :: 0 <= i < |init| ==> init[i] == chunks[i];
      CountOfUniform(init, kind, other);
    }
  }

  /** Every chunk has exactly one of the five kinds: the counts add up to the number of chunks. */
  lemma {:induction false} CountsAddUp(chunks: seq<Chunk>)
    ensures Count(chunks, Description) + Count(chunks, TestSteps) + Count(chunks, PassCriteria)
            + Count(chunks, FailCriteria) + Count(chunks, References) == |chunks|
    decreases |chunks|
  {
    if chunks != [] {
      CountsAddUp(chunks[..|chunks| - 1]);
    }
  }

  /** `_count_chunk_types`: a counter for every kind in the schema, incremented once per
      chunk. A chunk whose kind is not in the schema would make the increment fail. */
  method CountChunkTypes(chunks: seq<Chunk>, schema: seq<SchemaEntry>) returns (counter: map<ChunkKind, nat>)
    requires forall i :: 0 <= i < |chunks| ==> chunks[i].kind in SchemaKinds(schema)
    ensures counter.Keys == SchemaKinds(schema)
    ensures forall k :: k in counter ==> counter[k] == Count(chunks, k)
  {
    counter := map k | k in SchemaKinds(schema) :: 0;
    for i := 0 to |chunks|
      invariant counter.Keys == SchemaKinds(schema)
      invariant forall k :: k in counter ==> counter[k] == Count(chunks[..i], k)
    {
      assert chunks[..i + 1][..i] == chunks[..i];
      var kind := chunks[i].kind;
      counter := counter[kind := counter[kind] + 1];
    }
    assert chunks[..|chunks|] == chunks;
  }

  /** The finding for one schema entry: `E211` when the kind is required and absent
      (and nothing else for it), else `E212` above the maximum, else `E213` below the
      minimum. */
  function OccurrenceError(entry: SchemaEntry, actual: nat): Option<ValidationError> {
    var section := entry.kind.Value();
    if entry.range.min > 0 && actual == 0 then Some(E211(section))
    else if Exceeds(actual, entry.range.max) then Some(E212(section, actual, entry.range.max))
    else if actual < entry.range.min then Some(E213(section, actual, entry.range.min))
    else None
  }

  /** The findings of all schema entries, in schema order. */
  function OccurrenceErrors(chunks: seq<Chunk>, schema: seq<SchemaEntry>): seq<ValidationError> {
    if schema == [] then []
    else
      var entry := schema[|schema| - 1];
      OccurrenceErrors(chunks, schema[..|schema| - 1]) + ToSeq(OccurrenceError(entry, Count(chunks, entry.kind)))
  }

  /** One more schema entry adds its own finding at the end: one step of
      `OccurrenceErrors`, stated on `schema + [entry]` for the inductive proofs. */
  lemma OccurrenceErrorsSnoc(chunks: seq<Chunk>, schema: seq<SchemaEntry>, entry: SchemaEntry)
    ensures OccurrenceErrors(chunks, schema + [entry]) ==
            OccurrenceErrors(chunks, schema) + ToSeq(OccurrenceError(entry, Count(chunks, entry.kind)))
  {
    DropLast(schema, entry);
  }

  /** `validate_chunk_occurences`. */
  method ValidateChunkOccurrences(chunks: seq<Chunk>, schema: seq<SchemaEntry>) returns (errors: seq<ValidationError>)
    requires forall i :: 0 <= i < |chunks| ==> chunks[i].kind in SchemaKinds(schema)
    ensures errors == OccurrenceErrors(chunks, schema)
  {
    errors := [];
    var chunkCount := CountChunkTypes(chunks, schema);
    for i := 0 to |schema|
      invariant errors == OccurrenceErrors(chunks, schema[..i])
    {
      assert schema[..i + 1][..i] == schema[..i];
      var entry := schema[i];
      assert entry.kind in SchemaKinds(schema);
      var actual := chunkCount[entry.kind];
      var section := entry.kind.Value();
      var min := entry.range.min;
      var max := entry.range.max;
      if min > 0 && actual == 0 {
        errors := errors + [E211(section)];
      } else if Exceeds(actual, max) {
        errors := errors + [E212(section, actual, max)];
      } else if actual < min {
        errors := errors + [E213(section, actual, min)];
      }
    }
    assert schema[..|schema|] == schema;
  }

  /** Each schema entry contributes at most one finding, and each finding is about the
      occurrence of some kind (a code in the 21x band). */
  lemma {:induction false} OccurrenceErrorsBounded(chunks: seq<Chunk>, schema: seq<SchemaEntry>)
    ensures var errors := OccurrenceErrors(chunks, schema);
            |errors| <= |schema| && forall k :: 0 <= k < |errors| ==> errors[k].code in {"E211", "E212", "E213"}
    decreases |schema|
  {
    if schema != [] {
      OccurrenceErrorsBounded(chunks, schema[..|schema| - 1]);
    }
  }

  /** A kind without an upper bound is never reported above its maximum, and a kind
      whose minimum is at most one is never reported below it. */
  lemma OccurrenceErrorCases(entry: SchemaEntry, actual: nat)
    ensures entry.range.max == Unbounded ==> forall e :: OccurrenceError(entry, actual) == Some(e) ==> e.code != "E212"
    ensures entry.range.min <= 1 ==> forall e :: OccurrenceError(entry, actual) == Some(e) ==> e.code != "E213"
    ensures (entry.range.min > 0 && actual == 0) <==> OccurrenceError(entry, actual) == Some(E211(entry.kind.Value()))
  {
  }

  /** The number is within the range, both ends included. */
  predicate InRange(actual: nat, r: Range) {
    r.min <= actual && !Exceeds(actual, r.max)
  }

  /** One entry's finding is absent exactly when its count is within its range. */
  lemma OccurrenceErrorNone(entry: SchemaEntry, actual: nat)
    ensures OccurrenceError(entry, actual) == None <==> InRange(actual, entry.range)
  {
  }

  /** The occurrence validator finds nothing exactly when every schema entry's count is
      within its range. */
  lemma {:induction false} OccurrenceErrorsEmpty(chunks: seq<Chunk>, schema: seq<SchemaEntry>)
    ensures OccurrenceErrors(chunks, schema) == [] <==>
            forall k :: 0 <= k < |schema| ==> InRange(Count(chunks, schema[k].kind), schema[k].range)
    decreases |schema|
  {
    if schema != [] {
      var init := schema[..|schema| - 1];
      var entry := schema[|schema| - 1];
      var head := OccurrenceErrors(chunks, init);
      var own := OccurrenceError(entry, Count(chunks, entry.kind));
      OccurrenceErrorsEmpty(chunks, init);
      OccurrenceErrorNone(entry, Count(chunks, entry.kind));
      assert OccurrenceErrors(chunks, schema) == head + ToSeq(own);
      assert |head + ToSeq(own)| == |head| + |ToSeq(own)|;
      if forall k :: 0 <= k < |schema| ==> InRange(Count(chunks, schema[k].kind), schema[k].range) {
        forall k | 0 <= k < |init| ensures InRange(Count(chunks, init[k].kind), init[k].range) {
          assert init[k] == schema[k];
        }
      } else {
        var k :| 0 <= k < |schema| && !InRange(Count(chunks, schema[k].kind), schema[k].range);
        if k < |init| {
          assert init[k] == schema[k];
        }
      }
    }
  }
}
