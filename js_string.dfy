/**
 * The JavaScript string methods the chat input parser uses, over `seq<char>`:
 * `toLowerCase`, `startsWith`, `indexOf`, `split` with a string separator,
 * `replace` with a string pattern, and `trim`. Searches and splits walk the
 * string by index, as the ECMAScript algorithms do.
 */
module JsString {
  import opened Wrappers

  /** `pat` occurs in `s` starting at index `k`. */
  predicate OccursAt(s: string, pat: string, k: nat)
  {
    k + |pat| <= |s| && forall i :: 0 <= i < |pat| ==> s[k + i] == pat[i]
  }

  /** Each character of an occurrence matches the pattern. */
  lemma OccursAtChar(s: string, pat: string, k: nat, i: nat)
    requires OccursAt(s, pat, k) && i < |pat|
    ensures s[k + i] == pat[i]
  {
  }

  /** `s.startsWith(p)`. */
  predicate StartsWith(s: string, p: string)
  {
    |p| <= |s| && s[..|p|] == p
  }

  /** `s.indexOf(pat, from)`, with `None` for -1: the leftmost occurrence at
      or after `from`, if any. */
  function IndexFrom(s: string, pat: string, from: nat): (r: Option<nat>)
    requires from <= |s|
    ensures r.Some? ==> from <= r.value && OccursAt(s, pat, r.value)
    ensures r.Some? ==> forall j :: from <= j < r.value ==> !OccursAt(s, pat, j)
    ensures r.None? ==> forall j :: from <= j <= |s| ==> !OccursAt(s, pat, j)
    decreases |s| - from
  {
    if OccursAt(s, pat, from) then Some(from)
    else if from == |s| then None
    else IndexFrom(s, pat, from + 1)
  }

  /** `s.indexOf(pat)`. */
  function IndexOf(s: string, pat: string): Option<nat>
  {
    IndexFrom(s, pat, 0)
  }

  /** The leftmost occurrence at or after `from` is the only index with those
      two properties. */
  lemma IndexFromIs(s: string, pat: string, from: nat, k: nat)
    requires from <= k && OccursAt(s, pat, k)
    requires forall j :: from <= j < k ==> !OccursAt(s, pat, j)
    ensures IndexFrom(s, pat, from) == Some(k)
  {
    match IndexFrom(s, pat, from)
    case None =>
    case Some(i) =>
      if i < k {
      } else if k < i {
      }
  }

  /** A pattern with a character that `s` lacks does not occur in `s`. */
  lemma AbsentCharNoOccurrence(s: string, pat: string, i: nat)
    requires i < |pat| && pat[i] !in s
    ensures IndexOf(s, pat).None?
  {
    forall j: nat | OccursAt(s, pat, j)
      ensures false
    {
    }
  }

  /** Occurrences in `a + b` from index `|a|` on are those of `b`, moved by `|a|`. */
  lemma OccursShifted(a: string, b: string, pat: string, j: nat)
    ensures OccursAt(a + b, pat, |a| + j) <==> OccursAt(b, pat, j)
  {
  }

  /** Searching `a + b` from inside `b` is searching `b`. */
  lemma {:induction false} IndexFromShifted(a: string, b: string, pat: string, j: nat)
    requires j <= |b|
    ensures IndexFrom(a + b, pat, |a| + j) ==
              match IndexFrom(b, pat, j)
              case None => None
              case Some(k) => Some(|a| + k)
    decreases |b| - j
  {
    OccursShifted(a, b, pat, j);
    if !OccursAt(b, pat, j) && j < |b| {
      IndexFromShifted(a, b, pat, j + 1);
    }
  }

  /** Occurrences ending inside `s` are unaffected by text appended to `s`. */
  lemma OccursAppend(s: string, t: string, pat: string, j: nat)
    requires j + |pat| <= |s|
    ensures OccursAt(s + t, pat, j) <==> OccursAt(s, pat, j)
  {
  }

  /** Text appended after an occurrence does not move the leftmost one. */
  lemma {:induction false} IndexFromAppend(s: string, t: string, pat: string, from: nat)
    requires from <= |s| && IndexFrom(s, pat, from).Some?
    ensures IndexFrom(s + t, pat, from) == IndexFrom(s, pat, from)
    decreases |s| - from
  {
    OccursAppend(s, t, pat, from);
    if !OccursAt(s, pat, from) {
      IndexFromAppend(s, t, pat, from + 1);
    }
  }

  /** The segments of a split joined back with the separator. */
  function Join(parts: seq<string>, sep: string): string
    requires |parts| >= 1
  {
    if |parts| == 1 then parts[0] else parts[0] + sep + Join(parts[1..], sep)
  }

  /** The segments of `s[from..]` for a non-empty separator: the pieces
      between the occurrences found left to right, without overlaps. */
  function SplitFrom(s: string, sep: string, from: nat): (parts: seq<string>)
    requires sep != "" && from <= |s|
    ensures |parts| >= 1
    decreases |s| - from
  {
    match IndexFrom(s, sep, from)
    case None => [s[from..]]
    case Some(k) => [s[from..k]] + SplitFrom(s, sep, k + |sep|)
  }

  /** Joining the segments of `s[from..]` gives `s[from..]` back. */
  lemma {:induction false} SplitFromJoin(s: string, sep: string, from: nat)
    requires sep != "" && from <= |s|
    ensures Join(SplitFrom(s, sep, from), sep) == s[from..]
    decreases |s| - from
  {
    match IndexFrom(s, sep, from)
    case None =>
    case Some(k) =>
      SplitFromJoin(s, sep, k + |sep|);
      assert s[from..] == s[from..k] + sep + s[k + |sep|..];
  }

  /** `s.split(sep)` for a non-empty separator. */
  function Split(s: string, sep: string): seq<string>
    requires sep != ""
  {
    SplitFrom(s, sep, 0)
  }

  /** Splitting is undone by joining with the separator: no character is lost
      or added. */
  lemma SplitJoin(s: string, sep: string)
    requires sep != ""
    ensures |Split(s, sep)| >= 1 && Join(Split(s, sep), sep) == s
  {
    SplitFromJoin(s, sep, 0);
  }

  /** The first segment ends where the leftmost separator starts; there is a
      single segment exactly when no separator occurs. */
  lemma SplitFirstSegment(s: string, sep: string)
    requires sep != ""
    ensures var parts := Split(s, sep);
      IndexOf(s, sep) == if |parts| == 1 then None else Some(|parts[0]|)
  {
  }

  /** A piece of `s` between `from` and the next separator holds no separator. */
  lemma SegmentLacksSeparator(s: string, sep: string, from: nat, k: nat)
    requires sep != "" && from <= k <= |s|
    requires forall j :: from <= j < k ==> !OccursAt(s, sep, j)
    ensures IndexOf(s[from..k], sep).None?
  {
    var piece := s[from..k];
    forall j: nat | OccursAt(piece, sep, j)
      ensures false
    {
      forall i | 0 <= i < |sep|
        ensures s[from + j + i] == sep[i]
      {
        assert piece[j + i] == s[from + j + i];
      }
      assert OccursAt(s, sep, from + j);
    }
  }

  /** No segment of a split holds the separator. */
  lemma {:induction false} SplitFromSegmentsLackSeparator(s: string, sep: string, from: nat)
    requires sep != "" && from <= |s|
    ensures forall i :: 0 <= i < |SplitFrom(s, sep, from)| ==> IndexOf(SplitFrom(s, sep, from)[i], sep).None?
    decreases |s| - from
  {
    match IndexFrom(s, sep, from)
    case None =>
      SegmentLacksSeparator(s, sep, from, |s|);
      assert s[from..|s|] == s[from..];
    case Some(k) =>
      SegmentLacksSeparator(s, sep, from, k);
      SplitFromSegmentsLackSeparator(s, sep, k + |sep|);
  }

  /** No segment of `s.split(sep)` holds the separator. */
  lemma SplitSegmentsLackSeparator(s: string, sep: string)
    requires sep != ""
    ensures forall i :: 0 <= i < |Split(s, sep)| ==> IndexOf(Split(s, sep)[i], sep).None?
  {
    SplitFromSegmentsLackSeparator(s, sep, 0);
  }

  /** Where the segment of `s` that starts at `from` ends: at the next
      separator, or at the end of `s`. */
  function SegmentEnd(s: string, sep: string, from: nat): (r: nat)
    requires from <= |s|
    ensures from <= r <= |s|
  {
    match IndexFrom(s, sep, from)
    case None => |s|
    case Some(k) => k
  }

  /** The first segment of `s[from..]` runs from `from` to the next separator. */
  lemma FirstSegmentIs(s: string, sep: string, from: nat)
    requires sep != "" && from <= |s|
    ensures SplitFrom(s, sep, from)[0] == s[from..SegmentEnd(s, sep, from)]
    ensures |SplitFrom(s, sep, from)| >= 2 <==> IndexFrom(s, sep, from).Some?
  {
  }

  /** Text appended after the first separator of `s[from..]` leaves that
      separator, and the segment before it, where they were. */
  lemma FirstSegmentAfterAppend(s: string, t: string, sep: string, from: nat)
    requires sep != "" && from <= |s| && |SplitFrom(s, sep, from)| >= 2
    ensures IndexFrom(s + t, sep, from) == IndexFrom(s, sep, from)
    ensures |SplitFrom(s + t, sep, from)| >= 2
    ensures SplitFrom(s + t, sep, from)[0] == SplitFrom(s, sep, from)[0]
  {
    IndexFromAppend(s, t, sep, from);
    var k := IndexFrom(s, sep, from).value;
    assert (s + t)[from..k] == s[from..k];
  }

  /** The second segment of `s[from..]` is the first segment after its first
      separator, at `k`. */
  lemma SecondSegment(s: string, sep: string, from: nat) returns (k: nat)
    requires sep != "" && from <= |s| && |SplitFrom(s, sep, from)| >= 2
    ensures IndexFrom(s, sep, from) == Some(k) && k + |sep| <= |s|
    ensures SplitFrom(s, sep, from)[1] == SplitFrom(s, sep, k + |sep|)[0]
    ensures |SplitFrom(s, sep, from)| == |SplitFrom(s, sep, k + |sep|)| + 1
  {
    k := IndexFrom(s, sep, from).value;
  }

  /** `s.replace(pat, replacement)` for a string pattern: only the leftmost
      occurrence is replaced. The replacement is taken literally, which is what
      JavaScript does for one without `$` patterns. */
  function Replace(s: string, pat: string, replacement: string): string
  {
    match IndexOf(s, pat)
    case None => s
    case Some(k) => s[..k] + replacement + s[k + |pat|..]
  }

  /** A string that starts with `pat` loses exactly that prefix. */
  lemma ReplaceLeading(s: string, pat: string)
    requires StartsWith(s, pat)
    ensures Replace(s, pat, "") == s[|pat|..]
  {
    IndexFromIs(s, pat, 0, 0);
  }

  /** Removing the leftmost occurrence is undone by putting `pat` back where
      it was: the removal takes out exactly that occurrence. */
  lemma ReplaceRemovesLeftmost(s: string, pat: string)
    requires IndexOf(s, pat).Some?
    ensures var k := IndexOf(s, pat).value;
      var r := Replace(s, pat, "");
      |r| == |s| - |pat| && k <= |r| && r[..k] + pat + r[k..] == s
  {
    var k := IndexOf(s, pat).value;
    var r := Replace(s, pat, "");
    assert r == s[..k] + s[k + |pat|..];
    assert r[..k] == s[..k] && r[k..] == s[k + |pat|..];
    assert s[k..k + |pat|] == pat;
    assert s == s[..k] + s[k..k + |pat|] + s[k + |pat|..];
  }

  /** A string without `pat` comes back unchanged. */
  lemma ReplaceAbsent(s: string, pat: string)
    requires IndexOf(s, pat).None?
    ensures Replace(s, pat, "") == s
  {
  }

  /** The characters `trim` removes: ECMAScript's WhiteSpace (tab, vertical
      tab, form feed, space, no-break space, the byte order mark and the
      space separators) and LineTerminator (LF, CR, U+2028, U+2029). */
  predicate IsJsWhitespace(c: char)
  {
    || c == '\t' || c == '\U{0B}' || c == '\U{0C}' || c == ' '
    || c == '\U{A0}' || c == '\U{FEFF}' || c == '\U{1680}'
    || ('\U{2000}' <= c <= '\U{200A}')
    || c == '\U{202F}' || c == '\U{205F}' || c == '\U{3000}'
    || c == '\n' || c == '\r' || c == '\U{2028}' || c == '\U{2029}'
  }

  /** The first index at or after `i` that holds no whitespace, or `|s|`. */
  function SkipLeading(s: string, i: nat): (r: nat)
    requires i <= |s|
    ensures i <= r <= |s|
    ensures forall k :: i <= k < r ==> IsJsWhitespace(s[k])
    ensures r < |s| ==> !IsJsWhitespace(s[r])
    decreases |s| - i
  {
    if i < |s| && IsJsWhitespace(s[i]) then SkipLeading(s, i + 1) else i
  }

  /** The index just after the last non-whitespace character before `j`, or 0. */
  function SkipTrailing(s: string, j: nat): (r: nat)
    requires j <= |s|
    ensures r <= j
    ensures forall k :: r <= k < j ==> IsJsWhitespace(s[k])
    ensures 0 < r ==> !IsJsWhitespace(s[r - 1])
  {
    if 0 < j && IsJsWhitespace(s[j - 1]) then SkipTrailing(s, j - 1) else j
  }

  /** Neither end of `s` is whitespace. */
  predicate Trimmed(s: string)
  {
    s == [] || (!IsJsWhitespace(s[0]) && !IsJsWhitespace(s[|s| - 1]))
  }

  /** `s.trim()`: the text from the first to the last non-whitespace
      character, or the empty string when there is none. */
  function Trim(s: string): (r: string)
    ensures |r| <= |s|
    ensures Trimmed(r)
    ensures Trimmed(s) ==> r == s
  {
    var a := SkipLeading(s, 0);
    var b := SkipTrailing(s, |s|);
    if a < b then s[a..b] else []
  }

  /** What `trim` keeps is an infix of its input, and what it drops is
      whitespace. */
  lemma TrimIsInfix(s: string) returns (i: nat)
    ensures i + |Trim(s)| <= |s| && Trim(s) == s[i..i + |Trim(s)|]
    ensures forall k :: 0 <= k < i ==> IsJsWhitespace(s[k])
    ensures forall k :: i + |Trim(s)| <= k < |s| ==> IsJsWhitespace(s[k])
  {
    var a := SkipLeading(s, 0);
    var b := SkipTrailing(s, |s|);
    if a < b {
      i := a;
    } else {
      i := 0;
      forall k | 0 <= k < |s|
        ensures IsJsWhitespace(s[k])
      {
        if a <= k {
          assert b <= k;
        }
      }
    }
  }

  /** `c.toLowerCase()` on the ASCII letters; every other character is kept. */
  function ToLowerChar(c: char): char
  {
    if 'A' <= c <= 'Z' then (c as int + 32) as char else c
  }

  /** `s.toLowerCase()`, character by character. */
  function ToLowerCase(s: string): (r: string)
    ensures |r| == |s|
    ensures forall k :: 0 <= k < |s| ==> r[k] == ToLowerChar(s[k])
  {
    if s == [] then [] else [ToLowerChar(s[0])] + ToLowerCase(s[1..])
  }
}
