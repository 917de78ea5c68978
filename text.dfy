/**
  The Python string built-ins the validators rely on, over `string == seq<char>`:
  `str.isspace` and `str.strip`, `str.startswith`, `str.find` and `str.split(sep)`
  with its inverse `sep.join`, decimal formatting `f"{n}"`, and the leading run of
  decimal digits that the pattern `\d+` consumes.

  The functions carry only the facts their callers need to be well defined; what
  they compute is stated by the lemmas after them.
*/
module Text {
  import opened Seqs

  /** `c.isspace()` for ASCII characters: tab, line feed, vertical tab, form feed,
      carriage return, the four information separators (0x1C..0x1F) and space.
      The regular-expression class `\s` matches the same characters. */
  predicate IsSpace(c: char) {
    9 <= c as int <= 13 || 28 <= c as int <= 32
  }

  /** The regular-expression class `\d` on ASCII input. */
  predicate IsDigit(c: char) {
    '0' as int <= c as int <= '9' as int
  }

  predicate AllSpace(s: string) {
    forall i :: 0 <= i < |s| ==> IsSpace(s[i])
  }

  predicate AllDigits(s: string) {
    forall i :: 0 <= i < |s| ==> IsDigit(s[i])
  }

  /** `s.startswith(prefix)`. */
  predicate StartsWith(s: string, prefix: string) {
    |prefix| <= |s| && s[..|prefix|] == prefix
  }

  lemma StartsWithAppend(s: string, prefix: string, t: string)
    requires StartsWith(s, prefix)
    ensures StartsWith(s + t, prefix)
  {
    AppendParts(s, t);
    TakePrefix(s + t, |prefix|, |s|);
  }

  lemma StartsWithAt(s: string, prefix: string, i: nat)
    requires StartsWith(s, prefix) && i < |prefix|
    ensures s[i] == prefix[i]
  {
    assert s[..|prefix|][i] == s[i];
  }

  lemma StartsWithTrans(s: string, p: string, q: string)
    requires StartsWith(s, p) && StartsWith(p, q)
    ensures StartsWith(s, q)
  {
    TakePrefix(s, |q|, |p|);
  }

  // ---------------------------------------------------------------------------
  // strip

  /** The number of whitespace characters `s` begins with. */
  function LeadingSpace(s: string): (k: nat)
    ensures k <= |s|
  {
    if s != [] && IsSpace(s[0]) then 1 + LeadingSpace(s[1..]) else 0
  }

  lemma {:induction false} LeadingSpaceSpec(s: string)
    ensures var k := LeadingSpace(s);
            (forall i :: 0 <= i < k ==> IsSpace(s[i])) && (k == |s| || !IsSpace(s[k]))
    decreases |s|
  {
    if s != [] && IsSpace(s[0]) {
      LeadingSpaceSpec(s[1..]);
    }
  }

  /** The number of whitespace characters `s` ends with. */
  function TrailingSpace(s: string): (k: nat)
    ensures k <= |s|
  {
    if s != [] && IsSpace(s[|s| - 1]) then 1 + TrailingSpace(s[..|s| - 1]) else 0
  }

  lemma {:induction false} TrailingSpaceSpec(s: string)
    ensures var k := TrailingSpace(s);
            (forall i :: |s| - k <= i < |s| ==> IsSpace(s[i])) && (k == |s| || !IsSpace(s[|s| - k - 1]))
    decreases |s|
  {
    if s != [] && IsSpace(s[|s| - 1]) {
      TrailingSpaceSpec(s[..|s| - 1]);
    }
  }

  /** `s.lstrip()`: `s` without its leading whitespace. */
  function LStrip(s: string): string {
    s[LeadingSpace(s)..]
  }

  /** `s.rstrip()`: `s` without its trailing whitespace. */
  function RStrip(s: string): string {
    s[..|s| - TrailingSpace(s)]
  }

  /** `s.strip()`. */
  function Strip(s: string): string {
    RStrip(LStrip(s))
  }

  /** A string `strip()` leaves unchanged: empty, or neither end is whitespace. */
  predicate IsStripped(s: string) {
    s == [] || (!IsSpace(s[0]) && !IsSpace(s[|s| - 1]))
  }

  lemma LeadingSpaceExact(s: string, j: nat)
    requires j <= |s| && (forall i :: 0 <= i < j ==> IsSpace(s[i])) && (j == |s| || !IsSpace(s[j]))
    ensures LeadingSpace(s) == j
  {
    LeadingSpaceSpec(s);
  }

  lemma TrailingSpaceExact(s: string, j: nat)
    requires j <= |s| && (forall i :: |s| - j <= i < |s| ==> IsSpace(s[i])) && (j == |s| || !IsSpace(s[|s| - j - 1]))
    ensures TrailingSpace(s) == j
  {
    TrailingSpaceSpec(s);
  }

  /** `lstrip` removes exactly the leading whitespace run. */
  lemma LStripExact(s: string, j: nat)
    requires j <= |s| && AllSpace(s[..j]) && (j == |s| || !IsSpace(s[j]))
    ensures LStrip(s) == s[j..]
  {
    assert forall i :: 0 <= i < j ==> IsSpace(s[..j][i]);
    LeadingSpaceExact(s, j);
  }

  /** `lstrip` drops a run of whitespace and stops at a character that is not. */
  lemma LStripSpec(s: string)
    ensures var j := LeadingSpace(s);
            LStrip(s) == s[j..] && AllSpace(s[..j]) && (j < |s| ==> !IsSpace(s[j]))
  {
    LeadingSpaceSpec(s);
    var j := LeadingSpace(s);
    assert forall i :: 0 <= i < j ==> s[..j][i] == s[i];
  }

  /** What `strip` leaves: a stripped string, empty exactly when `s` is blank. */
  lemma StripSpec(s: string)
    ensures |Strip(s)| <= |s|
    ensures IsStripped(Strip(s))
    ensures Strip(s) == [] <==> AllSpace(s)
  {
    var k := LeadingSpace(s);
    var t := LStrip(s);
    LeadingSpaceSpec(s);
    TrailingSpaceSpec(t);
    if AllSpace(s) {
      LeadingSpaceExact(s, |s|);
    }
    if t != [] {
      assert t[0] == s[k];
    }
    if !AllSpace(s) {
      var i :| 0 <= i < |s| && !IsSpace(s[i]);
      assert k <= i;
      assert t[i - k] == s[i];
      assert TrailingSpace(t) < |t|;
    }
  }

  /** `strip` only removes characters: everything it keeps was in `s`. */
  lemma StripChars(s: string)
    ensures forall c :: c in Strip(s) ==> c in s
  {
    var k := LeadingSpace(s);
    var t := LStrip(s);
    forall c | c in Strip(s) ensures c in s {
      var i :| 0 <= i < |Strip(s)| && Strip(s)[i] == c;
      assert Strip(s)[i] == t[i];
      assert t[i] == s[k + i];
    }
  }

  lemma StrippedIsFixed(s: string)
    requires IsStripped(s)
    ensures LStrip(s) == s && Strip(s) == s
  {
    TakeAll(s);
    LeadingSpaceExact(s, 0);
    TrailingSpaceExact(s, 0);
  }

  lemma StripIsStripped(s: string)
    ensures IsStripped(Strip(s)) && Strip(Strip(s)) == Strip(s)
  {
    StripSpec(s);
    StrippedIsFixed(Strip(s));
  }

  /** Text after a non-blank prefix survives `lstrip` untouched. */
  lemma LStripAppend(x: string, y: string)
    requires !AllSpace(x)
    ensures LStrip(x + y) == LStrip(x) + y
  {
    var k := LeadingSpace(x);
    LeadingSpaceSpec(x);
    LeadingSpaceExact(x + y, k);
    DropAppend(x, y, k);
  }

  /** Appending text never shortens what `rstrip` keeps. */
  lemma RStripAppend(x: string, y: string)
    ensures StartsWith(RStrip(x + y), RStrip(x))
  {
    TrailingSpaceSpec(x);
    TrailingSpaceSpec(x + y);
    var m := |x| - TrailingSpace(x);
    var n := |x + y| - TrailingSpace(x + y);
    if m > 0 {
      assert (x + y)[m - 1] == x[m - 1];
    }
    assert m <= n;
    TakePrefix(x + y, m, n);
    AppendParts(x, y);
    TakePrefix(x + y, m, |x|);
  }

  /** `x.strip()` is a prefix of `(x + y).strip()`: appending text to a string
      never changes how its stripped form begins. */
  lemma StripAppend(x: string, y: string)
    ensures StartsWith(Strip(x + y), Strip(x))
  {
    if AllSpace(x) {
      StripSpec(x);
    } else {
      LStripAppend(x, y);
      RStripAppend(LStrip(x), y);
    }
  }

  lemma StripAppendKeepsPrefix(x: string, y: string, p: string)
    requires StartsWith(Strip(x), p)
    ensures StartsWith(Strip(x + y), p)
  {
    StripAppend(x, y);
    StartsWithTrans(Strip(x + y), Strip(x), p);
  }

  /** A string with a non-blank prefix is not blank. */
  lemma NonBlankPrefix(s: string, h: string)
    requires StartsWith(s, h) && !AllSpace(h)
    ensures !AllSpace(s)
  {
    var i :| 0 <= i < |h| && !IsSpace(h[i]);
    assert s[..|h|][i] == s[i];
  }

  /** Only a blank string `lstrip`s to nothing. */
  lemma LStripNonEmpty(s: string)
    requires LStrip(s) != []
    ensures !AllSpace(s)
  {
    if AllSpace(s) {
      LeadingSpaceExact(s, |s|);
    }
  }

  /** `rstrip` keeps a prefix that ends in whitespace exactly when the string starts
      with it and has a character that is not whitespace after it. */
  lemma RStripStartsWith(w: string, p: string)
    requires p != [] && IsSpace(p[|p| - 1])
    ensures StartsWith(RStrip(w), p) <==> StartsWith(w, p) && exists q :: |p| <= q < |w| && !IsSpace(w[q])
  {
    TrailingSpaceSpec(w);
    var n := |w| - TrailingSpace(w);
    if StartsWith(RStrip(w), p) {
      assert w[..n][..|p|] == w[..|p|];
      assert RStrip(w)[|p| - 1] == w[|p| - 1];
      assert !IsSpace(w[n - 1]);
    }
    if StartsWith(w, p) && exists q :: |p| <= q < |w| && !IsSpace(w[q]) {
      var q :| |p| <= q < |w| && !IsSpace(w[q]);
      assert q < n;
      assert w[..n][..|p|] == w[..|p|];
    }
  }

  /** Text that is empty or starts with a space, put between `s` and more text of
      that kind, keeps a prefix of `s + t` whose only space is its last character, and
      a character that is not whitespace after it. */
  lemma SpacedInsertKeepsPrefix(s: string, m: string, t: string, p: string, q: nat)
    requires (m == [] || m[0] == ' ') && (t == [] || t[0] == ' ')
    requires p != [] && p[|p| - 1] == ' ' && forall i :: 0 <= i < |p| - 1 ==> p[i] != ' '
    requires StartsWith(s + t, p) && |p| <= q < |s + t| && !IsSpace((s + t)[q])
    ensures StartsWith(s + m + t, p) && exists r :: |p| <= r < |s + m + t| && !IsSpace((s + m + t)[r])
  {
    var w := s + t;
    var x := s + m + t;
    if |s| >= |p| {
      assert x[..|p|] == s[..|p|] == w[..|p|];
      if q < |s| {
        assert x[q] == w[q];
      } else {
        assert x[q + |m|] == w[q];
      }
    } else if m == [] {
      assert x == w;
    } else {
      assert w[|s|] == t[0] == p[|s|];
      assert |s| == |p| - 1;
      assert x[..|p|] == w[..|p|] by {
        forall i | 0 <= i < |p| ensures x[i] == w[i] {
          if i < |s| {
            assert x[i] == s[i] == w[i];
          }
        }
      }
      assert x[q + |m|] == w[q];
    }
  }

  /** Text that is empty or starts with a space, put between a non-blank string and
      more text of that kind, keeps any prefix of the stripped result whose only space
      is its last character. */
  lemma StripInsertKeepsPrefix(a: string, m: string, t: string, p: string)
    requires !AllSpace(a) && (m == [] || m[0] == ' ') && (t == [] || t[0] == ' ')
    requires p != [] && p[|p| - 1] == ' ' && forall i :: 0 <= i < |p| - 1 ==> p[i] != ' '
    requires StartsWith(Strip(a + t), p)
    ensures StartsWith(Strip(a + m + t), p)
  {
    var s := LStrip(a);
    assert LStrip(a + m + t) == s + m + t by {
      LStripAppend(a, m + t);
      Assoc(a, m, t);
      Assoc(s, m, t);
    }
    assert LStrip(a + t) == s + t by {
      LStripAppend(a, t);
    }
    RStripStartsWith(s + t, p);
    var q :| |p| <= q < |s + t| && !IsSpace((s + t)[q]);
    SpacedInsertKeepsPrefix(s, m, t, p, q);
    RStripStartsWith(s + m + t, p);
  }

  // ---------------------------------------------------------------------------
  // find, split and join

  /** `sep` occurs in `s` at index `j`. */
  predicate OccursAt(s: string, j: nat, sep: string) {
    j + |sep| <= |s| && s[j..j + |sep|] == sep
  }

  /** The first index at or after `from` where `sep` occurs in `s`, or `|s|`. */
  function FindFrom(s: string, sep: string, from: nat): (i: nat)
    requires sep != []
    ensures i <= |s| && (i < |s| ==> i + |sep| <= |s|)
    decreases |s| - from
  {
    if |s| < from + |sep| then |s|
    else if s[from..from + |sep|] == sep then from
    else FindFrom(s, sep, from + 1)
  }

  /** `s.find(sep)`: the first index where `sep` occurs in `s`, or `|s|` when it does
      not occur. */
  function Find(s: string, sep: string): (i: nat)
    requires sep != []
    ensures i <= |s| && (i < |s| ==> i + |sep| <= |s|)
  {
    FindFrom(s, sep, 0)
  }

  lemma {:induction false} FindFromSpec(s: string, sep: string, from: nat)
    requires sep != []
    ensures var i := FindFrom(s, sep, from);
            (i < |s| ==> from <= i && OccursAt(s, i, sep)) &&
            (forall j :: from <= j < i ==> !OccursAt(s, j, sep))
    decreases |s| - from
  {
    if |s| >= from + |sep| && s[from..from + |sep|] != sep {
      FindFromSpec(s, sep, from + 1);
    }
  }

  lemma FindSpec(s: string, sep: string)
    requires sep != []
    ensures Find(s, sep) < |s| ==> OccursAt(s, Find(s, sep), sep)
    ensures forall j :: 0 <= j < Find(s, sep) ==> !OccursAt(s, j, sep)
  {
    FindFromSpec(s, sep, 0);
  }

  /** `Find` is the first occurrence, or `|s|` when there is none. */
  lemma FindExact(s: string, sep: string, k: nat)
    requires sep != [] && k <= |s|
    requires k < |s| ==> OccursAt(s, k, sep)
    requires forall j :: 0 <= j < k ==> !OccursAt(s, j, sep)
    ensures Find(s, sep) == k
  {
    FindSpec(s, sep);
  }

  /** `s.split(sep)`: the text is cut at the first occurrence of `sep`, and the search
      goes on after it, so occurrences never overlap. */
  function Split(s: string, sep: string): (r: seq<string>)
    requires sep != []
    ensures r != []
    decreases |s|
  {
    var i := Find(s, sep);
    if i == |s| then [s] else [s[..i]] + Split(s[i + |sep|..], sep)
  }

  /** The two cases of `Split`, as equations: one unfolding of its definition, for
      the proofs about splitting below. */
  lemma SplitUnfold(s: string, sep: string)
    requires sep != []
    ensures Find(s, sep) == |s| ==> Split(s, sep) == [s]
    ensures Find(s, sep) < |s| ==> Split(s, sep) == [s[..Find(s, sep)]] + Split(s[Find(s, sep) + |sep|..], sep)
  {
  }

  /** Text with no occurrence of the separator is one piece. */
  lemma SplitNone(s: string, sep: string)
    requires sep != []
    requires forall j :: 0 <= j < |s| ==> !OccursAt(s, j, sep)
    ensures Split(s, sep) == [s]
  {
    FindExact(s, sep, |s|);
    SplitUnfold(s, sep);
  }

  /** The first piece ends where the first occurrence of the separator begins. */
  lemma SplitFirst(x: string, y: string, sep: string)
    requires sep != []
    requires forall j :: 0 <= j < |x| ==> !OccursAt(x + sep + y, j, sep)
    ensures Split(x + sep + y, sep) == [x] + Split(y, sep)
  {
    var s := x + sep + y;
    Slices3(x, sep, y);
    FindExact(s, sep, |x|);
    SplitUnfold(s, sep);
  }

  /** `sep.join(parts)`. */
  function Join(parts: seq<string>, sep: string): string {
    if |parts| == 0 then ""
    else if |parts| == 1 then parts[0]
    else parts[0] + sep + Join(parts[1..], sep)
  }

  lemma JoinCons(x: string, ys: seq<string>, sep: string)
    requires ys != []
    ensures Join([x] + ys, sep) == x + sep + Join(ys, sep)
  {
    DropCons(x, ys);
  }

  lemma {:induction false} JoinSnoc(xs: seq<string>, y: string, sep: string)
    requires xs != []
    ensures Join(xs + [y], sep) == Join(xs, sep) + sep + y
    decreases |xs|
  {
    if |xs| == 1 {
      assert xs + [y] == [xs[0]] + [y];
      JoinCons(xs[0], [y], sep);
    } else {
      var t := xs[1..];
      JoinSnoc(t, y, sep);
      HeadTail(xs);
      assert xs + [y] == [xs[0]] + (t + [y]);
      JoinCons(xs[0], t + [y], sep);
      JoinCons(xs[0], t, sep);
    }
  }

  /** Joining the pieces of a split with the same separator gives the text back. */
  lemma {:induction false} JoinSplit(s: string, sep: string)
    requires sep != []
    ensures Join(Split(s, sep), sep) == s
    decreases |s|
  {
    SplitUnfold(s, sep);
    var i := Find(s, sep);
    if i < |s| {
      FindSpec(s, sep);
      var rest := s[i + |sep|..];
      JoinSplit(rest, sep);
      JoinCons(s[..i], Split(rest, sep), sep);
      Cut3(s, i, i + |sep|);
    }
  }

  // Splitting on one character.

  /** `s.find(c)` for a single character, `|s|` when it does not occur. */
  function IndexOf(s: string, c: char): (i: nat)
    ensures i <= |s|
  {
    if s == [] || s[0] == c then 0 else 1 + IndexOf(s[1..], c)
  }

  lemma {:induction false} IndexOfSpec(s: string, c: char)
    ensures var i := IndexOf(s, c);
            c !in s[..i] && (i < |s| ==> s[i] == c)
    decreases |s|
  {
    if s != [] && s[0] != c {
      IndexOfSpec(s[1..], c);
      var i := IndexOf(s, c);
      assert s[..i] == [s[0]] + s[1..][..i - 1];
    }
  }

  lemma IndexOfExact(s: string, c: char, k: nat)
    requires k <= |s| && c !in s[..k] && (k < |s| ==> s[k] == c)
    ensures IndexOf(s, c) == k
  {
    IndexOfSpec(s, c);
  }

  /** Searching for a one-character separator finds that character. */
  lemma FindChar(s: string, c: char)
    ensures Find(s, [c]) == IndexOf(s, c)
  {
    var k := IndexOf(s, c);
    IndexOfSpec(s, c);
    forall j | 0 <= j < k ensures !OccursAt(s, j, [c]) {
      Single(s, j);
      assert s[..k][j] == s[j];
    }
    if k < |s| {
      Single(s, k);
    }
    FindExact(s, [c], k);
  }

  /** Splitting on one character cuts at its first occurrence. */
  lemma SplitCharCut(s: string, c: char)
    ensures var i := IndexOf(s, c);
      Split(s, [c])[0] == s[..i] &&
      (i < |s| ==> Split(s, [c]) == [s[..i]] + Split(s[i + 1..], [c])) &&
      (i == |s| ==> Split(s, [c]) == [s])
  {
    FindChar(s, c);
    SplitUnfold(s, [c]);
    TakeAll(s);
  }

  lemma SplitCharAbsent(s: string, c: char)
    requires c !in s
    ensures Split(s, [c]) == [s]
  {
    TakeAll(s);
    IndexOfExact(s, c, |s|);
    SplitCharCut(s, c);
  }

  lemma SplitCharFirst(a: string, b: string, c: char)
    requires c !in a
    ensures Split(a + [c] + b, [c]) == [a] + Split(b, [c])
  {
    var s := a + [c] + b;
    Slices3(a, [c], b);
    assert s[|a|] == s[|a|..|a| + 1][0];
    IndexOfExact(s, c, |a|);
    SplitCharCut(s, c);
  }

  /** Splitting on a character gives one more piece than it has occurrences, and no
      piece contains it. */
  lemma {:induction false} SplitCharPieces(s: string, c: char)
    ensures |Split(s, [c])| == multiset(s)[c] + 1
    ensures forall k :: 0 <= k < |Split(s, [c])| ==> c !in Split(s, [c])[k]
    decreases |s|
  {
    SplitCharCut(s, c);
    IndexOfSpec(s, c);
    var i := IndexOf(s, c);
    if i < |s| {
      var rest := s[i + 1..];
      SplitCharPieces(rest, c);
      Cut3(s, i, i + 1);
      Single(s, i);
      assert multiset(s) == multiset(s[..i]) + multiset([c]) + multiset(rest);
      assert multiset(s[..i])[c] == 0;
      var r := Split(s, [c]);
      var tail := Split(rest, [c]);
      forall k | 0 <= k < |r| ensures c !in r[k] {
        if k > 0 {
          ConsIndex(s[..i], tail, k);
        }
      }
    } else {
      TakeAll(s);
      assert multiset(s)[c] == 0;
    }
  }

  /** Splitting text joined with a character it does not contain gives the parts back. */
  lemma {:induction false} SplitJoinChar(parts: seq<string>, c: char)
    requires parts != []
    requires forall k :: 0 <= k < |parts| ==> c !in parts[k]
    ensures Split(Join(parts, [c]), [c]) == parts
    decreases |parts|
  {
    if |parts| == 1 {
      SplitCharAbsent(parts[0], c);
    } else {
      SplitJoinChar(parts[1..], c);
      SplitCharFirst(parts[0], Join(parts[1..], [c]), c);
      HeadTail(parts);
    }
  }

  // ---------------------------------------------------------------------------
  // decimal numbers

  function DigitChar(d: nat): char
    requires d < 10
  {
    ('0' as int + d) as char
  }

  /** `f"{n}"`: the decimal representation of `n`. */
  function NatToString(n: nat): string
    decreases n
  {
    if n < 10 then [DigitChar(n)] else NatToString(n / 10) + [DigitChar(n % 10)]
  }

  /** The decimal representation is a non-empty run of digits, and only zero is
      written with a leading `0`. */
  lemma {:induction false} NatToStringDigits(n: nat)
    ensures NatToString(n) != [] && AllDigits(NatToString(n))
    ensures NatToString(n)[0] == '0' ==> n == 0
    decreases n
  {
    if n >= 10 {
      NatToStringDigits(n / 10);
    }
  }

  lemma AllDigitsPrefix(s: string, k: nat)
    requires AllDigits(s) && k <= |s|
    ensures AllDigits(s[..k])
  {
    assert forall i :: 0 <= i < k ==> s[..k][i] == s[i];
  }

  /** The value of a string of decimal digits, the inverse of `NatToString`. */
  function DecimalValue(s: string): nat
    requires AllDigits(s)
  {
    if s == [] then 0
    else
      assert IsDigit(s[|s| - 1]);
      AllDigitsPrefix(s, |s| - 1);
      10 * DecimalValue(s[..|s| - 1]) + (s[|s| - 1] as int - '0' as int)
  }

  lemma {:induction false} DecimalValueOfNatToString(n: nat)
    ensures AllDigits(NatToString(n)) && DecimalValue(NatToString(n)) == n
    decreases n
  {
    NatToStringDigits(n);
    if n >= 10 {
      DropLast(NatToString(n / 10), DigitChar(n % 10));
      DecimalValueOfNatToString(n / 10);
    }
  }

  /** Different numbers are written differently. */
  lemma NatToStringInjective(m: nat, n: nat)
    requires NatToString(m) == NatToString(n)
    ensures m == n
  {
    DecimalValueOfNatToString(m);
    DecimalValueOfNatToString(n);
  }

  /** The length of the longest prefix of decimal digits: what `\d+` consumes. */
  function LeadingDigits(s: string): (k: nat)
    ensures k <= |s|
  {
    if s != [] && IsDigit(s[0]) then 1 + LeadingDigits(s[1..]) else 0
  }

  lemma {:induction false} LeadingDigitsSpec(s: string)
    ensures var k := LeadingDigits(s);
            (forall i :: 0 <= i < k ==> IsDigit(s[i])) && (k == |s| || !IsDigit(s[k]))
    decreases |s|
  {
    if s != [] && IsDigit(s[0]) {
      LeadingDigitsSpec(s[1..]);
    }
  }

  lemma LeadingDigitsPrefix(s: string)
    ensures AllDigits(s[..LeadingDigits(s)])
  {
    LeadingDigitsSpec(s);
    var k := LeadingDigits(s);
    assert forall i :: 0 <= i < k ==> s[..k][i] == s[i];
  }

  lemma LeadingDigitsOfPrefix(s: string, k: nat)
    requires k < |s| && AllDigits(s[..k]) && !IsDigit(s[k])
    ensures LeadingDigits(s) == k
  {
    assert forall i :: 0 <= i < k ==> s[..k][i] == s[i];
    LeadingDigitsSpec(s);
  }

  lemma LeadingDigitsExact(s: string, k: nat)
    requires k <= |s| && (forall i :: 0 <= i < k ==> IsDigit(s[i])) && (k == |s| || !IsDigit(s[k]))
    ensures LeadingDigits(s) == k
  {
    LeadingDigitsSpec(s);
  }
}
