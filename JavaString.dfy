/**
 * The java.lang.String and java.util.regex behaviour the pipeline relies on:
 * `trim`, `split("\n")`, `replace`, `indexOf`, `repeat`, the character sets
 * of the regex classes `\s` and `.`, and the runtime exceptions the steps
 * can raise. Characters are Unicode scalar values (Dafny `char`).
 */
module JavaString {

  datatype Option<T> = None | Some(value: T)

  /** The unchecked exceptions the pipeline can throw. */
  datatype Exception =
    | IndexOutOfBounds        // List.get(i) with i >= size()
    | StringIndexOutOfBounds  // String.substring(0, -1) after a failed indexOf
    | PatternSyntax           // replaceAll with an allowedCharactersRegex that does not compile

  datatype Result<T> = Success(value: T) | Failure(error: Exception)

  /** The characters `String.trim` removes: everything up to U+0020. */
  predicate IsTrimmable(c: char) {
    c <= ' '
  }

  /** The regex class `\s` without UNICODE_CHARACTER_CLASS: [ \t\n\x0B\f\r]. */
  predicate IsRegexSpace(c: char) {
    c == ' ' || c == '\t' || c == '\n' || c == '\U{B}' || c == '\U{C}' || c == '\r'
  }

  /** The line terminators of java.util.regex: `.` rejects them, `$` may match before them. */
  predicate IsLineTerminator(c: char) {
    c == '\n' || c == '\r' || c == '\U{85}' || c == '\U{2028}' || c == '\U{2029}'
  }

  // ---------------------------------------------------------------------
  // String.trim()

  /** Number of leading characters `trim` removes. */
  function LeadingTrimmable(s: string): (n: nat)
    ensures n <= |s|
  {
    if s == [] || !IsTrimmable(s[0]) then 0 else 1 + LeadingTrimmable(s[1..])
  }

  /** The leading run is trimmable and is followed by a character that is not. */
  lemma {:induction false} LeadingTrimmableMeaning(s: string)
    ensures forall k :: 0 <= k < LeadingTrimmable(s) ==> IsTrimmable(s[k])
    ensures LeadingTrimmable(s) < |s| ==> !IsTrimmable(s[LeadingTrimmable(s)])
  {
    if s != [] && IsTrimmable(s[0]) {
      LeadingTrimmableMeaning(s[1..]);
    }
  }

  /** Number of trailing characters `trim` removes. */
  function TrailingTrimmable(s: string): (n: nat)
    ensures n <= |s|
  {
    if s == [] || !IsTrimmable(s[|s| - 1]) then 0 else 1 + TrailingTrimmable(s[..|s| - 1])
  }

  /** The trailing run is trimmable and is preceded by a character that is not. */
  lemma {:induction false} TrailingTrimmableMeaning(s: string)
    ensures forall k :: |s| - TrailingTrimmable(s) <= k < |s| ==> IsTrimmable(s[k])
    ensures TrailingTrimmable(s) < |s| ==> !IsTrimmable(s[|s| - 1 - TrailingTrimmable(s)])
  {
    if s != [] && IsTrimmable(s[|s| - 1]) {
      TrailingTrimmableMeaning(s[..|s| - 1]);
    }
  }

  /**
   * `String.trim`: the infix between the leading and the trailing run of
   * characters up to U+0020.
   */
  function Trim(s: string): (t: string)
    ensures |t| <= |s|
  {
    var a := LeadingTrimmable(s);
    var rest := s[a..];
    rest[..|rest| - TrailingTrimmable(rest)]
  }

  /**
   * The trimmed string is the infix after the leading trimmable run, it starts
   * and ends with a character above U+0020, and only trimmable characters follow it.
   */
  lemma TrimMeaning(s: string)
    ensures LeadingTrimmable(s) + |Trim(s)| <= |s|
    ensures Trim(s) == s[LeadingTrimmable(s)..LeadingTrimmable(s) + |Trim(s)|]
    ensures Trim(s) != [] ==> !IsTrimmable(Trim(s)[0]) && !IsTrimmable(Trim(s)[|Trim(s)| - 1])
    ensures forall k :: LeadingTrimmable(s) + |Trim(s)| <= k < |s| ==> IsTrimmable(s[k])
  {
    var a := LeadingTrimmable(s);
    var rest := s[a..];
    var m := |rest| - TrailingTrimmable(rest);
    LeadingTrimmableMeaning(s);
    TrailingTrimmableMeaning(rest);
    assert Trim(s) == rest[..m];
    assert rest[..m] == s[a..a + m];
    if m > 0 {
      assert rest[..m][0] == s[a];
      assert rest[..m][m - 1] == rest[m - 1];
    }
    forall k | a + m <= k < |s|
      ensures IsTrimmable(s[k])
    {
      assert s[k] == rest[k - a];
    }
  }

  /** Every character of `s` is one that `trim` removes. */
  predicate AllTrimmable(s: string) {
    forall k :: 0 <= k < |s| ==> IsTrimmable(s[k])
  }

  lemma AllTrimmableConcat(a: string, b: string)
    requires AllTrimmable(a) && AllTrimmable(b)
    ensures AllTrimmable(a + b)
  {
    assert forall k :: |a| <= k < |a + b| ==> (a + b)[k] == b[k - |a|];
  }

  /** `trim` removes exactly the surrounding characters up to U+0020, whichever the input. */
  lemma TrimIgnoresSurrounding(w1: string, s: string, w2: string)
    requires AllTrimmable(w1) && AllTrimmable(w2)
    ensures Trim(w1 + s + w2) == Trim(s)
  {
    var u := w1 + s + w2;
    TrimMeaning(s);
    LeadingTrimmableMeaning(s);
    var t := Trim(s);
    var a := LeadingTrimmable(s);
    var b := a + |t|;
    assert AllTrimmable(s[..a]) by {
      assert forall k :: 0 <= k < a ==> s[..a][k] == s[k];
    }
    assert AllTrimmable(s[b..]) by {
      assert forall k :: 0 <= k < |s| - b ==> s[b..][k] == s[b + k];
    }
    AllTrimmableConcat(w1, s[..a]);
    AllTrimmableConcat(s[b..], w2);
    SurroundedSlices(w1, s, w2, a, b);
    TrimIsMiddle(u, |w1| + a, |w1| + b);
  }

  /** The slices of `w1 + s + w2` at cut points `a <= b` of `s`, shifted by `|w1|`. */
  lemma SurroundedSlices(w1: string, s: string, w2: string, a: nat, b: nat)
    requires a <= b <= |s|
    ensures (w1 + s + w2)[..|w1| + a] == w1 + s[..a]
    ensures (w1 + s + w2)[|w1| + b..] == s[b..] + w2
    ensures (w1 + s + w2)[|w1| + a..|w1| + b] == s[a..b]
  {
    var u := w1 + s + w2;
    assert u[..|w1| + a] == w1 + s[..a];
    assert u[|w1| + b..] == s[b..] + w2;
    assert u[|w1| + a..|w1| + b] == s[a..b];
  }

  /** Every string is its trimmed form with trimmable characters around it. */
  lemma TrimSurroundings(s: string) returns (w1: string, w2: string)
    ensures AllTrimmable(w1) && AllTrimmable(w2)
    ensures s == w1 + Trim(s) + w2
  {
    TrimMeaning(s);
    LeadingTrimmableMeaning(s);
    var a := LeadingTrimmable(s);
    var b := a + |Trim(s)|;
    w1, w2 := s[..a], s[b..];
    assert forall k :: 0 <= k < a ==> w1[k] == s[k];
    assert forall k :: 0 <= k < |w2| ==> w2[k] == s[b + k];
    assert s == s[..a] + s[a..b] + s[b..];
  }

  /** A string of trimmable characters only trims to the empty string. */
  lemma TrimOfTrimmable(u: string)
    requires AllTrimmable(u)
    ensures Trim(u) == []
  {
    LeadingTrimmableMeaning(u);
    assert LeadingTrimmable(u) == |u|;
  }

  /**
   * `trim` is characterised by its cut points: the infix that has only trimmable
   * characters outside it and, unless empty, none at its two ends.
   */
  lemma TrimIsMiddle(u: string, a: nat, b: nat)
    requires a <= b <= |u|
    requires AllTrimmable(u[..a]) && AllTrimmable(u[b..])
    requires a < b ==> !IsTrimmable(u[a]) && !IsTrimmable(u[b - 1])
    ensures Trim(u) == u[a..b]
  {
    if a == b {
      assert u == u[..a] + u[b..];
      AllTrimmableConcat(u[..a], u[b..]);
      TrimOfTrimmable(u);
    } else {
      assert forall k :: 0 <= k < a ==> IsTrimmable(u[k]) by {
        assert forall k :: 0 <= k < a ==> u[..a][k] == u[k];
      }
      assert forall k :: b <= k < |u| ==> IsTrimmable(u[k]) by {
        assert forall k :: b <= k < |u| ==> u[b..][k - b] == u[k];
      }
      var a' := LeadingTrimmable(u);
      LeadingTrimmableMeaning(u);
      TrimMeaning(u);
      assert a' == a;
      var t := Trim(u);
      var b' := a + |t|;
      assert t != [] ==> t[|t| - 1] == u[b' - 1];
      assert b' == b;
    }
  }

  // ---------------------------------------------------------------------
  // String.split("\n")

  /** The pieces of `s` between its '\n' characters, empty ones included. */
  function Pieces(s: string): (r: seq<string>)
    ensures |r| >= 1
    ensures forall k :: 0 <= k < |r| ==> '\n' !in r[k]
  {
    if s == [] then [""]
    else
      var rest := Pieces(s[1..]);
      if s[0] == '\n' then [""] + rest else [[s[0]] + rest[0]] + rest[1..]
  }

  /** The pieces glued back together with '\n' between them (String.join). */
  function JoinLines(xs: seq<string>): string
  {
    if xs == [] then ""
    else if |xs| == 1 then xs[0]
    else xs[0] + "\n" + JoinLines(xs[1..])
  }

  /** Splitting into pieces loses nothing: joining them gives the input back. */
  lemma {:induction false} JoinPieces(s: string)
    ensures JoinLines(Pieces(s)) == s
  {
    if s != [] {
      JoinPieces(s[1..]);
      var rest := Pieces(s[1..]);
      if s[0] == '\n' {
        assert JoinLines([""] + rest) == "" + "\n" + JoinLines(rest);
      } else {
        var r := [[s[0]] + rest[0]] + rest[1..];
        if |rest| == 1 {
          assert JoinLines(r) == [s[0]] + rest[0];
        } else {
          assert r[1..] == rest[1..];
          assert JoinLines(rest) == rest[0] + "\n" + JoinLines(rest[1..]);
          assert JoinLines(r) == [s[0]] + rest[0] + "\n" + JoinLines(rest[1..]);
        }
      }
    }
  }

  /** Joining newline-free pieces and splitting again gives the pieces back. */
  lemma {:induction false} PiecesOfJoin(xs: seq<string>)
    requires xs != []
    requires forall k :: 0 <= k < |xs| ==> '\n' !in xs[k]
    ensures Pieces(JoinLines(xs)) == xs
  {
    if |xs| == 1 {
      PiecesOfPlain(xs[0]);
    } else {
      PiecesOfJoin(xs[1..]);
      PiecesAfterNewline(xs[0], JoinLines(xs[1..]));
      assert [xs[0]] + xs[1..] == xs;
    }
  }

  /** A newline-free string is one piece. */
  lemma {:induction false} PiecesOfPlain(x: string)
    requires '\n' !in x
    ensures Pieces(x) == [x]
  {
    if x != [] {
      assert x == [x[0]] + x[1..];
      PiecesOfPlain(x[1..]);
    }
  }

  /** A newline-free prefix followed by '\n' is the first piece. */
  lemma {:induction false} PiecesAfterNewline(x: string, y: string)
    requires '\n' !in x
    ensures Pieces(x + "\n" + y) == [x] + Pieces(y)
  {
    if x == [] {
      assert x + "\n" + y == ['\n'] + y;
      assert (['\n'] + y)[1..] == y;
    } else {
      assert x == [x[0]] + x[1..];
      PiecesAfterNewline(x[1..], y);
      assert (x + "\n" + y)[1..] == x[1..] + "\n" + y;
      assert (x + "\n" + y)[0] == x[0];
      assert [x[0]] + x[1..] == x;
    }
  }

  /** The list without its trailing empty strings. */
  function DropTrailingEmpty(xs: seq<string>): (r: seq<string>)
    ensures |r| <= |xs| && r == xs[..|r|]
    ensures r != [] ==> r[|r| - 1] != ""
    ensures forall k :: |r| <= k < |xs| ==> xs[k] == ""
  {
    if xs == [] || xs[|xs| - 1] != "" then xs else DropTrailingEmpty(xs[..|xs| - 1])
  }

  /**
   * `String.split("\n")`: the pieces with trailing empty strings dropped; an input
   * without '\n' is returned whole, so "" gives [""] while "\n" gives [].
   */
  function Split(s: string): (lines: seq<string>)
    ensures forall k :: 0 <= k < |lines| ==> '\n' !in lines[k]
  {
    if '\n' in s then DropTrailingEmpty(Pieces(s)) else [s]
  }

  /** Every line followed by '\n', as a StringBuilder loop appending `line` and "\n" builds it. */
  function Unlines(xs: seq<string>): (s: string)
  {
    if xs == [] then "" else Unlines(xs[..|xs| - 1]) + xs[|xs| - 1] + "\n"
  }

  /** `Unlines` is the join with one more, empty, piece at the end. */
  lemma {:induction false} UnlinesIsJoin(xs: seq<string>)
    ensures Unlines(xs) == JoinLines(xs + [""])
  {
    if xs != [] {
      var init := xs[..|xs| - 1];
      UnlinesIsJoin(init);
      JoinAppend(init, xs[|xs| - 1]);
      assert xs + [""] == init + [xs[|xs| - 1], ""];
    }
  }

  /** Joining a list with one more trailing empty piece. */
  lemma {:induction false} JoinAppend(xs: seq<string>, x: string)
    ensures JoinLines(xs + [x, ""]) == JoinLines(xs + [""]) + x + "\n"
  {
    if xs == [] {
      assert [x, ""][1..] == [""];
    } else {
      JoinAppend(xs[1..], x);
      assert (xs + [x, ""])[1..] == xs[1..] + [x, ""];
      assert (xs + [""])[1..] == xs[1..] + [""];
    }
  }

  /** Splitting text built from newline-free lines gives the lines back, if the last is non-empty. */
  lemma SplitUnlines(xs: seq<string>)
    requires xs != [] && xs[|xs| - 1] != ""
    requires forall k :: 0 <= k < |xs| ==> '\n' !in xs[k]
    ensures Split(Unlines(xs)) == xs
  {
    UnlinesIsJoin(xs);
    var ys := xs + [""];
    PiecesOfJoin(ys);
    assert Unlines(xs)[|Unlines(xs)| - 1] == '\n';
    assert DropTrailingEmpty(ys) == xs;
  }

  /**
   * Splitting and re-terminating every line normalises the end of a document:
   * text not ending in '\n' gains exactly one.
   */
  lemma UnlinesSplit(s: string)
    requires s != [] && s[|s| - 1] != '\n'
    ensures Unlines(Split(s)) == s + "\n"
  {
    var ps := Pieces(s);
    if '\n' in s {
      LastPieceOf(s);
      assert DropTrailingEmpty(ps) == ps;
      UnlinesIsJoin(ps);
      JoinAppendEmpty(ps);
      JoinPieces(s);
    } else {
      assert Unlines([s]) == s + "\n";
    }
  }

  /** The last piece of a string not ending in '\n' is not empty. */
  lemma {:induction false} LastPieceOf(s: string)
    requires s != [] && s[|s| - 1] != '\n'
    ensures Pieces(s)[|Pieces(s)| - 1] != ""
  {
    if |s| > 1 {
      LastPieceOf(s[1..]);
    }
  }

  /** Joining with an extra empty piece adds a final '\n'. */
  lemma {:induction false} JoinAppendEmpty(xs: seq<string>)
    requires xs != []
    ensures JoinLines(xs + [""]) == JoinLines(xs) + "\n"
  {
    if |xs| > 1 {
      JoinAppendEmpty(xs[1..]);
      assert (xs + [""])[1..] == xs[1..] + [""];
    }
  }

  // ---------------------------------------------------------------------
  // String.indexOf(String)

  /** `t` occurs in `s` at offset `k`. */
  predicate OccursAt(s: string, t: string, k: nat) {
    k + |t| <= |s| && s[k..k + |t|] == t
  }

  /** `String.indexOf`: the first offset at which `t` occurs in `s`, None where Java returns -1. */
  function IndexOf(s: string, t: string): (r: Option<nat>)
    ensures r.Some? ==> OccursAt(s, t, r.value)
    ensures r.Some? ==> forall j :: 0 <= j < r.value ==> !OccursAt(s, t, j)
    ensures r.None? ==> forall j: nat :: !OccursAt(s, t, j)
  {
    if |t| > |s| then None
    else if s[..|t|] == t then Some(0)
    else
      var rest := IndexOf(s[1..], t);
      OccursShift(s, t);
      if rest.Some? then Some(rest.value + 1) else None
  }

  /** An occurrence past offset 0 is an occurrence in the tail. */
  lemma OccursShift(s: string, t: string)
    requires s != []
    ensures forall j: nat :: 0 < j ==> OccursAt(s, t, j) == OccursAt(s[1..], t, j - 1)
  {
    forall j: nat | 0 < j && j + |t| <= |s| ensures OccursAt(s, t, j) == OccursAt(s[1..], t, j - 1) {
      assert s[j..j + |t|] == s[1..][j - 1..j - 1 + |t|];
    }
  }

  // ---------------------------------------------------------------------
  // String.replace(CharSequence, CharSequence)

  /** `s.replace("", r)`: `r` before every character and at the end. */
  function ReplaceEmptyTarget(s: string, r: string): string
  {
    if s == [] then r else r + [s[0]] + ReplaceEmptyTarget(s[1..], r)
  }

  /**
   * `String.replace`: every occurrence of `target`, scanned left to right and
   * without overlap, replaced by `replacement`.
   */
  function Replace(s: string, target: string, replacement: string): string
    decreases |s|
  {
    if target == [] then ReplaceEmptyTarget(s, replacement)
    else if |s| < |target| then s
    else if s[..|target|] == target then replacement + Replace(s[|target|..], target, replacement)
    else [s[0]] + Replace(s[1..], target, replacement)
  }

  /** Reference for a one-character target: each character mapped on its own. */
  function ReplaceEachChar(s: string, c: char, replacement: string): string
  {
    if s == [] then []
    else (if s[0] == c then replacement else [s[0]]) + ReplaceEachChar(s[1..], c, replacement)
  }

  /** With a one-character target, `replace` rewrites each occurrence of that character. */
  lemma {:induction false} ReplaceOneChar(s: string, c: char, replacement: string)
    ensures Replace(s, [c], replacement) == ReplaceEachChar(s, c, replacement)
  {
    if s != [] {
      ReplaceOneChar(s[1..], c, replacement);
      assert s[..1] == [s[0]];
    }
  }

  /** After replacing a character by text without it, the character is gone. */
  lemma {:induction false} ReplaceOneCharRemovesIt(s: string, c: char, replacement: string)
    requires c !in replacement
    ensures c !in Replace(s, [c], replacement)
  {
    ReplaceOneChar(s, c, replacement);
    EachCharRemoves(s, c, replacement);
  }

  lemma {:induction false} EachCharRemoves(s: string, c: char, replacement: string)
    requires c !in replacement
    ensures c !in ReplaceEachChar(s, c, replacement)
  {
    if s != [] {
      EachCharRemoves(s[1..], c, replacement);
    }
  }

  /** A target that does not occur leaves the string unchanged. */
  lemma {:induction false} ReplaceAbsent(s: string, target: string, replacement: string)
    requires target != []
    requires forall j: nat :: !OccursAt(s, target, j)
    ensures Replace(s, target, replacement) == s
  {
    if |s| >= |target| {
      assert !OccursAt(s, target, 0);
      OccursShift(s, target);
      assert forall j: nat :: !OccursAt(s[1..], target, j) by {
        forall j: nat ensures !OccursAt(s[1..], target, j) {
          assert !OccursAt(s, target, j + 1);
        }
      }
      ReplaceAbsent(s[1..], target, replacement);
    }
  }

  // ---------------------------------------------------------------------
  // String.repeat(int)

  function Repeat(s: string, n: nat): (r: string)
    ensures |r| == n * |s|
  {
    if n == 0 then "" else s + Repeat(s, n - 1)
  }

  /** `n` copies of one character. */
  function RepeatChar(c: char, n: nat): (r: string)
    ensures |r| == n
    ensures forall k :: 0 <= k < n ==> r[k] == c
  {
    if n == 0 then "" else [c] + RepeatChar(c, n - 1)
  }

  /** The last element of a concatenation with a non-empty right part, and what precedes it. */
  lemma LastOfConcat<T>(a: seq<T>, b: seq<T>)
    requires b != []
    ensures (a + b)[..|a + b| - 1] == a + b[..|b| - 1]
    ensures (a + b)[|a + b| - 1] == b[|b| - 1]
  {
    assert (a + b)[..|a + b| - 1] == a + b[..|b| - 1];
  }

  /** Regrouping a concatenation. Called where the regrouping is needed, it is cheaper than the extensional equality the solver would otherwise search for. */
  lemma AppendAssociates<T>(p: seq<T>, q: seq<T>, r: seq<T>)
    ensures (p + q) + r == p + (q + r)
  {
  }
}
