/**
 * The few Python string operations the request router relies on:
 * `str.endswith`, the negative slice `s[:-n]`, and `str.split(sep)`
 * followed by taking the last part. `Join` (Python's `sep.join`) is the
 * inverse of `Split` and serves as its specification.
 */
module Text {

  /** `s.endswith(suffix)` */
  predicate EndsWith(s: string, suffix: string) {
    |suffix| <= |s| && s[|s| - |suffix|..] == suffix
  }

  /**
   * The slice `s[:-n]`: `s` without its last `n` characters. As in Python,
   * the result is empty when `n` is zero (`s[:-0]` is `s[:0]`) or when `n`
   * is at least `|s|`.
   */
  function DropLast(s: string, n: nat): string {
    if n == 0 || |s| < n then "" else s[..|s| - n]
  }

  /** Stripping a known non-empty suffix with `DropLast` gives back what preceded it. */
  lemma DropLastOfSuffix(prefix: string, suffix: string)
    requires suffix != ""
    ensures EndsWith(prefix + suffix, suffix)
    ensures DropLast(prefix + suffix, |suffix|) == prefix
  {
  }

  /** The sum of the lengths of `parts`. */
  function TotalLength(parts: seq<string>): nat {
    if parts == [] then 0 else |parts[0]| + TotalLength(parts[1..])
  }

  /** `sep.join(parts)`: the parts in order, with one separator between each two. */
  function Join(parts: seq<string>, sep: char): (s: string)
    ensures |parts| >= 1 ==> |s| == TotalLength(parts) + |parts| - 1
  {
    if |parts| == 0 then ""
    else if |parts| == 1 then parts[0]
    else parts[0] + [sep] + Join(parts[1..], sep)
  }

  /** Prepending a character to the first part prepends it to the joined text. */
  lemma JoinConsChar(c: char, parts: seq<string>, sep: char)
    requires |parts| >= 1
    ensures Join([[c] + parts[0]] + parts[1..], sep) == [c] + Join(parts, sep)
  {
  }

  /**
   * `s.split(sep)`: the maximal runs of `s` between occurrences of `sep`,
   * empty runs included, so there is always at least one part and an
   * input with k separators gives k + 1 parts. Joining the parts with
   * `sep` gives back the input.
   */
  function Split(s: string, sep: char): (parts: seq<string>)
    ensures |parts| >= 1
    ensures forall i :: 0 <= i < |parts| ==> sep !in parts[i]
    ensures Join(parts, sep) == s
    decreases |s|
  {
    if s == [] then [[]]
    else
      var rest := Split(s[1..], sep);
      if s[0] == sep then
        assert Join([[]] + rest, sep) == [sep] + Join(rest, sep);
        [[]] + rest
      else
        JoinConsChar(s[0], rest, sep);
        [[s[0]] + rest[0]] + rest[1..]
  }

  /** A run without separators, followed by a separator, becomes one whole part. */
  lemma {:induction false} SplitRunThenSep(run: string, t: string, sep: char)
    requires sep !in run
    ensures Split(run + [sep] + t, sep) == [run] + Split(t, sep)
    decreases |run|
  {
    var s := run + [sep] + t;
    if run == [] {
      assert s[0] == sep && s[1..] == t;
    } else {
      assert s[0] == run[0] && s[1..] == run[1..] + [sep] + t;
      SplitRunThenSep(run[1..], t, sep);
      assert [run[0]] + run[1..] == run;
    }
  }

  /** A run without separators splits into itself. */
  lemma SplitRun(run: string, sep: char)
    requires sep !in run
    ensures Split(run, sep) == [run]
    decreases |run|
  {
  }

  /** `Split` undoes `Join`: parts without separators are recovered exactly. */
  lemma {:induction false} SplitOfJoin(parts: seq<string>, sep: char)
    requires |parts| >= 1
    requires forall i :: 0 <= i < |parts| ==> sep !in parts[i]
    ensures Split(Join(parts, sep), sep) == parts
  {
    if |parts| == 1 {
      SplitRun(parts[0], sep);
    } else {
      SplitOfJoin(parts[1..], sep);
      SplitRunThenSep(parts[0], Join(parts[1..], sep), sep);
      assert [parts[0]] + parts[1..] == parts;
    }
  }

  /** The last part is preceded, in the joined text, by the others and one separator. */
  lemma {:induction false} JoinSnoc(parts: seq<string>, sep: char)
    requires |parts| >= 2
    ensures Join(parts, sep) == Join(parts[..|parts| - 1], sep) + [sep] + parts[|parts| - 1]
  {
    if |parts| > 2 {
      JoinSnoc(parts[1..], sep);
      assert parts[1..][..|parts| - 2] == parts[..|parts| - 1][1..];
    }
  }

  /**
   * `seg` is the text after the last `/` of `s`, or all of `s` when `s` has
   * no `/`: a suffix of `s` without `/`, preceded in `s` by a `/` unless it
   * is the whole of `s`.
   */
  predicate IsLastSegment(s: string, seg: string) {
    && EndsWith(s, seg)
    && '/' !in seg
    && (|seg| == |s| || s[|s| - |seg| - 1] == '/')
  }

  /** A `/`-free text after a `/` is the last segment. */
  lemma LastSegmentAfterSlash(prefix: string, seg: string)
    requires '/' !in seg
    ensures IsLastSegment(prefix + "/" + seg, seg)
  {
  }

  /** At most one text is the last segment of `s`. */
  lemma LastSegmentUnique(s: string, a: string, b: string)
    requires IsLastSegment(s, a) && IsLastSegment(s, b)
    ensures a == b
  {
  }

  /** `s.split('/')[-1]` */
  function LastSegment(s: string): string {
    var parts := Split(s, '/');
    parts[|parts| - 1]
  }

  /** `s.split('/')[-1]` is exactly the text after the last `/` of `s`. */
  lemma LastSegmentIsLast(s: string)
    ensures IsLastSegment(s, LastSegment(s))
  {
    var parts := Split(s, '/');
    var seg := parts[|parts| - 1];
    if |parts| >= 2 {
      JoinSnoc(parts, '/');
      var prefix := Join(parts[..|parts| - 1], '/');
      assert s == prefix + ['/'] + seg;
      assert s[|s| - |seg|..] == seg;
      assert s[|s| - |seg| - 1] == '/';
    }
  }

  /** Any characterisation of the last segment agrees with `s.split('/')[-1]`. */
  lemma LastSegmentOf(s: string, seg: string)
    requires IsLastSegment(s, seg)
    ensures LastSegment(s) == seg
  {
    LastSegmentIsLast(s);
    LastSegmentUnique(s, LastSegment(s), seg);
  }
}
