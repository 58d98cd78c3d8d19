/**
 * The pieces of Rust's string library the core relies on: `str::split` on a
 * single character, `str::lines` and `str::split_whitespace`, each with the
 * join that undoes it.
 */
module Text {

  /** Position of the first `c` in `s`, or `|s|` when `s` has none. */
  function IndexOf(s: string, c: char): (i: nat)
    ensures i <= |s|
    ensures forall k :: 0 <= k < i ==> s[k] != c
    ensures i < |s| ==> s[i] == c
  {
    if s == [] then 0
    else if s[0] == c then 0
    else 1 + IndexOf(s[1..], c)
  }

  lemma {:induction false} IndexOfFirst(a: string, c: char, b: string)
    requires c !in a
    ensures IndexOf(a + [c] + b, c) == |a|
  {
    var s := a + [c] + b;
    if a == [] {
      assert s[0] == c;
    } else {
      assert s[0] == a[0];
      assert s[1..] == a[1..] + [c] + b;
      IndexOfFirst(a[1..], c, b);
    }
  }

  lemma {:induction false} IndexOfAbsent(s: string, c: char)
    requires c !in s
    ensures IndexOf(s, c) == |s|
  {
    if s != [] {
      assert s[0] != c;
      IndexOfAbsent(s[1..], c);
    }
  }

  // ---------------------------------------------------------------------
  // `str::split` on one separator character

  /** The segments of `s` between occurrences of `sep`; like Rust, at least one. */
  function SplitOn(s: string, sep: char): (parts: seq<string>)
    ensures |parts| >= 1
    ensures forall k :: 0 <= k < |parts| ==> sep !in parts[k]
    decreases |s|
  {
    var i := IndexOf(s, sep);
    if i == |s| then [s]
    else [s[..i]] + SplitOn(s[i + 1..], sep)
  }

  /** The segments glued back together with `sep` between them. */
  function JoinOn(parts: seq<string>, sep: char): string
    requires |parts| >= 1
  {
    if |parts| == 1 then parts[0]
    else parts[0] + [sep] + JoinOn(parts[1..], sep)
  }

  lemma {:induction false} JoinSplitOn(s: string, sep: char)
    ensures JoinOn(SplitOn(s, sep), sep) == s
    decreases |s|
  {
    var i := IndexOf(s, sep);
    if i < |s| {
      JoinSplitOn(s[i + 1..], sep);
      assert s == s[..i] + [sep] + s[i + 1..];
    }
  }

  lemma {:induction false} SplitJoinOn(parts: seq<string>, sep: char)
    requires |parts| >= 1
    requires forall k :: 0 <= k < |parts| ==> sep !in parts[k]
    ensures SplitOn(JoinOn(parts, sep), sep) == parts
  {
    if |parts| == 1 {
      IndexOfAbsent(parts[0], sep);
    } else {
      var rest := JoinOn(parts[1..], sep);
      IndexOfFirst(parts[0], sep, rest);
      var s := parts[0] + [sep] + rest;
      assert JoinOn(parts, sep) == s;
      assert s[..|parts[0]|] == parts[0];
      assert s[|parts[0]| + 1..] == rest;
      assert SplitOn(s, sep) == [parts[0]] + SplitOn(rest, sep);
      assert forall k :: 0 <= k < |parts| - 1 ==> parts[1..][k] == parts[k + 1];
      SplitJoinOn(parts[1..], sep);
      assert parts == [parts[0]] + parts[1..];
    }
  }

  /** Joining a shorter run of leading segments yields a prefix of the full join. */
  lemma {:induction false} JoinOnPrefix(parts: seq<string>, sep: char, k: nat)
    requires 1 <= k <= |parts|
    ensures JoinOn(parts[..k], sep) <= JoinOn(parts, sep)
  {
    if k < |parts| {
      if k == 1 {
        assert parts[..1][0] == parts[0];
      } else {
        assert parts[..k][1..] == parts[1..][..k - 1];
        JoinOnPrefix(parts[1..], sep, k - 1);
      }
    } else {
      assert parts[..k] == parts;
    }
  }

  // ---------------------------------------------------------------------
  // `str::lines`

  /** A line that `str::lines` hands back unchanged: no line feed, no final carriage return. */
  predicate SingleLine(l: string) {
    '\n' !in l && (l == [] || l[|l| - 1] != '\r')
  }

  function StripCr(l: string): string {
    if l != [] && l[|l| - 1] == '\r' then l[..|l| - 1] else l
  }

  /**
   * Rust's `str::lines`: split on line feeds, the final line ending is optional
   * (so a trailing empty segment is dropped), and a `\r` directly before a
   * line feed belongs to the line ending; a `\r` ending unterminated text stays.
   */
  function SplitLines(s: string): (lines: seq<string>)
    ensures forall k :: 0 <= k < |lines| ==> '\n' !in lines[k]
  {
    LinesOf(SplitOn(s, '\n'))
  }

  /**
   * The lines given the segments between line feeds: every segment but the
   * last was ended by a line feed and loses a `\r` before it; the last is a
   * line only when it is not empty, and is kept as it is.
   */
  function LinesOf(parts: seq<string>): (lines: seq<string>)
    requires |parts| >= 1
    requires forall k :: 0 <= k < |parts| ==> '\n' !in parts[k]
    ensures forall k :: 0 <= k < |lines| ==> '\n' !in lines[k]
  {
    var n := |parts| - 1;
    var ended := seq(n, k requires 0 <= k < n => StripCr(parts[k]));
    if parts[n] == [] then ended else ended + [parts[n]]
  }

  /** Text without a line feed is one line, unchanged, even when it ends in `\r`. */
  lemma UnterminatedLine(s: string)
    requires '\n' !in s && s != []
    ensures SplitLines(s) == [s]
  {
    IndexOfAbsent(s, '\n');
    assert s[..|s|] == s;
  }

  /** Every line followed by a line feed, as the YAML renderer writes text. */
  function JoinLines(lines: seq<string>): string {
    if lines == [] then "" else lines[0] + "\n" + JoinLines(lines[1..])
  }

  lemma {:induction false} JoinLinesAppend(a: seq<string>, b: seq<string>)
    ensures JoinLines(a + b) == JoinLines(a) + JoinLines(b)
  {
    if a == [] {
      assert a + b == b;
    } else {
      assert (a + b)[0] == a[0];
      assert (a + b)[1..] == a[1..] + b;
      JoinLinesAppend(a[1..], b);
    }
  }

  lemma JoinLinesSnoc(a: seq<string>, l: string)
    ensures JoinLines(a + [l]) == JoinLines(a) + l + "\n"
  {
    JoinLinesAppend(a, [l]);
  }

  lemma {:induction false} JoinLinesAsJoinOn(lines: seq<string>)
    ensures JoinLines(lines) == JoinOn(lines + [""], '\n')
  {
    if lines != [] {
      assert (lines + [""])[1..] == lines[1..] + [""];
      JoinLinesAsJoinOn(lines[1..]);
    }
  }

  /** Splitting the text written by `JoinLines` gives the lines back. */
  lemma SplitJoinLines(lines: seq<string>)
    requires forall k :: 0 <= k < |lines| ==> SingleLine(lines[k])
    ensures SplitLines(JoinLines(lines)) == lines
  {
    SplitJoinLinesCr(lines);
  }

  /**
   * Lines written with `JoinLines` come back from `SplitLines` as they were,
   * except that a line ending in `\r` loses it: `\r\n` is a line ending.
   */
  lemma SplitJoinLinesCr(lines: seq<string>)
    requires forall k :: 0 <= k < |lines| ==> '\n' !in lines[k]
    ensures SplitLines(JoinLines(lines)) == seq(|lines|, k requires 0 <= k < |lines| => StripCr(lines[k]))
  {
    var parts := lines + [""];
    LinesOfEnded(lines);
    JoinLinesAsJoinOn(lines);
    SplitJoinOn(parts, '\n');
  }

  /** Every segment followed by a line feed gives one line, with a final `\r` removed. */
  lemma LinesOfEnded(lines: seq<string>)
    requires forall k :: 0 <= k < |lines| ==> '\n' !in lines[k]
    ensures forall k :: 0 <= k < |lines| + 1 ==> '\n' !in (lines + [""])[k]
    ensures LinesOf(lines + [""]) == seq(|lines|, k requires 0 <= k < |lines| => StripCr(lines[k]))
  {
    var parts := lines + [""];
    forall k | 0 <= k < |parts| ensures '\n' !in parts[k] {
      if k < |lines| { assert parts[k] == lines[k]; }
    }
    var r := LinesOf(parts);
    forall k | 0 <= k < |lines| ensures r[k] == StripCr(lines[k]) {
      assert r[k] == StripCr(parts[k]);
    }
  }

  // ---------------------------------------------------------------------
  // `str::split_whitespace`

  /** Unicode's White_Space property, which `char::is_whitespace` tests. */
  predicate IsSpace(c: char) {
    c == ' ' || ('\t' <= c <= '\r') || c == '\U{85}' || c == '\U{A0}' || c == '\U{1680}'
    || ('\U{2000}' <= c <= '\U{200A}') || c == '\U{2028}' || c == '\U{2029}'
    || c == '\U{202F}' || c == '\U{205F}' || c == '\U{3000}'
  }

  predicate NoSpace(s: string) {
    forall k :: 0 <= k < |s| ==> !IsSpace(s[k])
  }

  /** A token `split_whitespace` can produce: non-empty, without whitespace. */
  predicate Word(w: string) {
    w != [] && NoSpace(w)
  }

  /** Scans `s` having already collected the partial token `cur`. */
  function WordsFrom(s: string, cur: string): (words: seq<string>)
    requires NoSpace(cur)
    ensures forall k :: 0 <= k < |words| ==> Word(words[k])
    decreases |s|
  {
    if s == [] then
      (if cur == [] then [] else [cur])
    else if IsSpace(s[0]) then
      (if cur == [] then [] else [cur]) + WordsFrom(s[1..], [])
    else
      WordsFrom(s[1..], cur + [s[0]])
  }

  /** Rust's `str::split_whitespace`: the maximal runs of non-whitespace, in order. */
  function Words(s: string): (words: seq<string>)
    ensures forall k :: 0 <= k < |words| ==> Word(words[k])
  {
    WordsFrom(s, [])
  }

  /** Only whitespace, as in the padding between the columns of a table. */
  predicate AllSpace(g: string) {
    forall k :: 0 <= k < |g| ==> IsSpace(g[k])
  }

  /**
   * The words with runs of whitespace around and between them: `gaps[0]`
   * before the first word and `gaps[k + 1]` after word `k`.
   */
  function Spaced(words: seq<string>, gaps: seq<string>): string
    requires |gaps| == |words| + 1
  {
    if words == [] then gaps[0] else gaps[0] + words[0] + Spaced(words[1..], gaps[1..])
  }

  /** Gaps that keep the words apart: all whitespace, and none empty between two words. */
  predicate Separates(words: seq<string>, gaps: seq<string>) {
    && |gaps| == |words| + 1
    && (forall k :: 0 <= k < |gaps| ==> AllSpace(gaps[k]))
    && (forall k :: 0 < k < |words| ==> gaps[k] != [])
  }

  lemma {:induction false} WordsFromSkip(w: string, rest: string, cur: string)
    requires NoSpace(w) && NoSpace(cur)
    ensures WordsFrom(w + rest, cur) == WordsFrom(rest, cur + w)
    decreases |w|
  {
    if w == [] {
      assert w + rest == rest;
      assert cur + w == cur;
    } else {
      assert (w + rest)[0] == w[0];
      assert (w + rest)[1..] == w[1..] + rest;
      assert cur + [w[0]] + w[1..] == cur + w;
      WordsFromSkip(w[1..], rest, cur + [w[0]]);
    }
  }

  /** Whitespace before the next word is skipped. */
  lemma {:induction false} WordsFromBlank(g: string, rest: string)
    requires AllSpace(g)
    ensures WordsFrom(g + rest, []) == WordsFrom(rest, [])
    decreases |g|
  {
    if g == [] {
      assert g + rest == rest;
    } else {
      assert (g + rest)[0] == g[0];
      assert (g + rest)[1..] == g[1..] + rest;
      WordsFromBlank(g[1..], rest);
    }
  }

  /** Whitespace after a word ends it. */
  lemma WordsFromEnd(w: string, g: string, rest: string)
    requires Word(w) && AllSpace(g) && g != []
    ensures WordsFrom(g + rest, w) == [w] + WordsFrom(rest, [])
  {
    assert (g + rest)[0] == g[0];
    assert (g + rest)[1..] == g[1..] + rest;
    WordsFromBlank(g[1..], rest);
  }

  /**
   * `split_whitespace` gives back the words, however much whitespace of
   * whatever kind surrounds and separates them.
   */
  lemma {:induction false} WordsSpaced(words: seq<string>, gaps: seq<string>)
    requires forall k :: 0 <= k < |words| ==> Word(words[k])
    requires Separates(words, gaps)
    ensures Words(Spaced(words, gaps)) == words
  {
    if words == [] {
      WordsFromBlank(gaps[0], []);
      assert gaps[0] + [] == gaps[0];
    } else {
      var w, after := words[0], Spaced(words[1..], gaps[1..]);
      assert Spaced(words, gaps) == gaps[0] + (w + after);
      WordsFromBlank(gaps[0], w + after);
      WordsFromSkip(w, after, []);
      assert [] + w == w;
      if |words| == 1 {
        assert after == gaps[1];
        if gaps[1] == [] {
        } else {
          WordsFromEnd(w, gaps[1], []);
          assert gaps[1] + [] == gaps[1];
        }
      } else {
        var next := words[1] + Spaced(words[2..], gaps[2..]);
        assert words[1..][1..] == words[2..] && gaps[1..][1..] == gaps[2..];
        assert after == gaps[1] + next;
        WordsFromEnd(w, gaps[1], next);
        WordsFromBlank(gaps[1], next);
        assert forall k :: 0 <= k < |words| - 1 ==> words[1..][k] == words[k + 1];
        assert forall k :: 0 < k < |words| - 1 ==> gaps[1..][k] == gaps[k + 1];
        WordsSpaced(words[1..], gaps[1..]);
      }
    }
  }

  /** Whitespace at the end of the text adds no word. */
  lemma {:induction false} WordsFromTrailing(s: string, c: char, cur: string)
    requires IsSpace(c) && NoSpace(cur)
    ensures WordsFrom(s + [c], cur) == WordsFrom(s, cur)
    decreases |s|
  {
    if s == [] {
      assert s + [c] == [c];
      assert [c][1..] == [];
    } else {
      assert (s + [c])[0] == s[0];
      assert (s + [c])[1..] == s[1..] + [c];
      if IsSpace(s[0]) {
        WordsFromTrailing(s[1..], c, []);
      } else {
        WordsFromTrailing(s[1..], c, cur + [s[0]]);
      }
    }
  }

  /** Dropping a carriage return from the end of a line changes none of its words. */
  lemma WordsStripCr(l: string)
    ensures Words(StripCr(l)) == Words(l)
  {
    if l != [] && l[|l| - 1] == '\r' {
      assert l == l[..|l| - 1] + ['\r'];
      WordsFromTrailing(l[..|l| - 1], '\r', []);
    }
  }
}
