/**
 * The default slug strategy: a fixed chain of seven string stages, each a
 * function here, composed by `Slugify` and run step by step by `ToSlug`.
 */
module DefaultSlugStrategy {
  import opened JavaString
  import opened SlugifyConfiguration

  /** No character of `s` satisfies `bad`. */
  predicate Avoids(s: string, bad: char -> bool)
  {
    forall c :: c in s ==> !bad(c)
  }

  /** No two adjacent characters of `s` are both `c`. */
  predicate NoAdjacent(s: string, c: char)
  {
    forall k :: 0 <= k < |s| - 1 ==> !(s[k] == c && s[k + 1] == c)
  }

  // ---------------------------------------------------------------------
  // Stage 1: literal replacements, pair by pair in order

  /** Each pair applied with `String.replace` to the result of the previous ones. */
  function ApplyReplacements(s: string, replacements: seq<(string, string)>): string
    decreases |replacements|
  {
    if replacements == [] then s
    else ApplyReplacements(Replace(s, replacements[0].0, replacements[0].1), replacements[1..])
  }

  /** A further pair acts on the result of all the earlier ones. */
  lemma {:induction false} ApplyReplacementsInOrder(s: string, replacements: seq<(string, string)>, pair: (string, string))
    ensures ApplyReplacements(s, replacements + [pair]) == Replace(ApplyReplacements(s, replacements), pair.0, pair.1)
    decreases |replacements|
  {
    if replacements != [] {
      assert (replacements + [pair])[1..] == replacements[1..] + [pair];
      ApplyReplacementsInOrder(Replace(s, replacements[0].0, replacements[0].1), replacements[1..], pair);
    }
  }

  // ---------------------------------------------------------------------
  // Stage 2: accent removal (NFD, then delete \p{InCombiningDiacriticalMarks})

  /** The Unicode block Combining Diacritical Marks, U+0300..U+036F. */
  predicate IsCombiningMark(c: char) {
    '\U{300}' <= c <= '\U{36F}'
  }

  type Latin1Supplement = c: char | '\U{C0}' <= c <= '\U{FF}' witness '\U{C0}'
  type AsciiChar = c: char | c < '\U{80}' witness 'a'
  type CombiningMark = c: char | IsCombiningMark(c) witness '\U{300}'

  /**
   * Canonical (NFD) decompositions of the precomposed letters of the Latin-1
   * Supplement: each is a base letter followed by one combining mark.
   */
  function Decomposition(c: Latin1Supplement): Option<(AsciiChar, CombiningMark)>
  {
    match c
    case '\U{C0}' => Some(('A', '\U{300}'))
    case '\U{C1}' => Some(('A', '\U{301}'))
    case '\U{C2}' => Some(('A', '\U{302}'))
    case '\U{C3}' => Some(('A', '\U{303}'))
    case '\U{C4}' => Some(('A', '\U{308}'))
    case '\U{C5}' => Some(('A', '\U{30A}'))
    case '\U{C7}' => Some(('C', '\U{327}'))
    case '\U{C8}' => Some(('E', '\U{300}'))
    case '\U{C9}' => Some(('E', '\U{301}'))
    case '\U{CA}' => Some(('E', '\U{302}'))
    case '\U{CB}' => Some(('E', '\U{308}'))
    case '\U{CC}' => Some(('I', '\U{300}'))
    case '\U{CD}' => Some(('I', '\U{301}'))
    case '\U{CE}' => Some(('I', '\U{302}'))
    case '\U{CF}' => Some(('I', '\U{308}'))
    case '\U{D1}' => Some(('N', '\U{303}'))
    case '\U{D2}' => Some(('O', '\U{300}'))
    case '\U{D3}' => Some(('O', '\U{301}'))
    case '\U{D4}' => Some(('O', '\U{302}'))
    case '\U{D5}' => Some(('O', '\U{303}'))
    case '\U{D6}' => Some(('O', '\U{308}'))
    case '\U{D9}' => Some(('U', '\U{300}'))
    case '\U{DA}' => Some(('U', '\U{301}'))
    case '\U{DB}' => Some(('U', '\U{302}'))
    case '\U{DC}' => Some(('U', '\U{308}'))
    case '\U{DD}' => Some(('Y', '\U{301}'))
    case '\U{E0}' => Some(('a', '\U{300}'))
    case '\U{E1}' => Some(('a', '\U{301}'))
    case '\U{E2}' => Some(('a', '\U{302}'))
    case '\U{E3}' => Some(('a', '\U{303}'))
    case '\U{E4}' => Some(('a', '\U{308}'))
    case '\U{E5}' => Some(('a', '\U{30A}'))
    case '\U{E7}' => Some(('c', '\U{327}'))
    case '\U{E8}' => Some(('e', '\U{300}'))
    case '\U{E9}' => Some(('e', '\U{301}'))
    case '\U{EA}' => Some(('e', '\U{302}'))
    case '\U{EB}' => Some(('e', '\U{308}'))
    case '\U{EC}' => Some(('i', '\U{300}'))
    case '\U{ED}' => Some(('i', '\U{301}'))
    case '\U{EE}' => Some(('i', '\U{302}'))
    case '\U{EF}' => Some(('i', '\U{308}'))
    case '\U{F1}' => Some(('n', '\U{303}'))
    case '\U{F2}' => Some(('o', '\U{300}'))
    case '\U{F3}' => Some(('o', '\U{301}'))
    case '\U{F4}' => Some(('o', '\U{302}'))
    case '\U{F5}' => Some(('o', '\U{303}'))
    case '\U{F6}' => Some(('o', '\U{308}'))
    case '\U{F9}' => Some(('u', '\U{300}'))
    case '\U{FA}' => Some(('u', '\U{301}'))
    case '\U{FB}' => Some(('u', '\U{302}'))
    case '\U{FC}' => Some(('u', '\U{308}'))
    case '\U{FD}' => Some(('y', '\U{301}'))
    case '\U{FF}' => Some(('y', '\U{308}'))
    case _ => None
  }


  /** Whether `c` is one of the precomposed letters of the table. */
  predicate Decomposable(c: char)
  {
    '\U{C0}' <= c <= '\U{FF}' && Decomposition(c as Latin1Supplement).Some?
  }

  function DecomposeChar(c: char): string
  {
    if Decomposable(c) then
      var parts := Decomposition(c as Latin1Supplement).value;
      [parts.0, parts.1]
    else [c]
  }

  /** `Normalizer.normalize(s, NFD)`, for the characters of the decomposition table. */
  function Decompose(s: string): string
  {
    if s == [] then []
    else DecomposeChar(s[0]) + Decompose(s[1..])
  }

  /** `replaceAll("\\p{InCombiningDiacriticalMarks}+", "")`. */
  function RemoveMarks(s: string): string
  {
    if s == [] then []
    else (if IsCombiningMark(s[0]) then [] else [s[0]]) + RemoveMarks(s[1..])
  }

  function StripAccents(s: string): string
  {
    RemoveMarks(Decompose(s))
  }

  /** After accent removal no combining mark and no decomposable letter is left. */
  lemma {:induction false} StripAccentsLeavesBaseLetters(s: string)
    ensures Avoids(StripAccents(s), IsCombiningMark)
    ensures forall c :: c in StripAccents(s) ==> !Decomposable(c)
  {
    DecomposeHasNoPrecomposed(s);
    RemoveMarksMeaning(Decompose(s));
  }

  lemma {:induction false} DecomposeHasNoPrecomposed(s: string)
    ensures forall c :: c in Decompose(s) ==> !Decomposable(c)
  {
    if s != [] {
      DecomposeHasNoPrecomposed(s[1..]);
    }
  }


  /** Removing marks deletes exactly the combining marks. */
  lemma {:induction false} RemoveMarksMeaning(s: string)
    ensures Avoids(RemoveMarks(s), IsCombiningMark)
    ensures forall c :: c in RemoveMarks(s) <==> c in s && !IsCombiningMark(c)
  {
    if s != [] {
      RemoveMarksMeaning(s[1..]);
      assert s == [s[0]] + s[1..];
    }
  }

  /** Text without combining marks or decomposable letters (plain ASCII, say) is left as it is. */
  lemma {:induction false} StripAccentsKeepsPlainText(s: string)
    requires forall k :: 0 <= k < |s| ==> !Decomposable(s[k]) && !IsCombiningMark(s[k])
    ensures StripAccents(s) == s
  {
    if s != [] {
      StripAccentsKeepsPlainText(s[1..]);
    }
  }

  /** Accent removal works character by character. */
  lemma {:induction false} StripAccentsConcat(a: string, b: string)
    ensures StripAccents(a + b) == StripAccents(a) + StripAccents(b)
  {
    DecomposeConcat(a, b);
    RemoveMarksConcat(Decompose(a), Decompose(b));
  }

  lemma {:induction false} DecomposeConcat(a: string, b: string)
    ensures Decompose(a + b) == Decompose(a) + Decompose(b)
  {
    if a != [] {
      assert (a + b)[1..] == a[1..] + b;
      DecomposeConcat(a[1..], b);
    } else {
      assert a + b == b;
    }
  }

  lemma {:induction false} RemoveMarksConcat(a: string, b: string)
    ensures RemoveMarks(a + b) == RemoveMarks(a) + RemoveMarks(b)
  {
    if a != [] {
      assert (a + b)[1..] == a[1..] + b;
      RemoveMarksConcat(a[1..], b);
    } else {
      assert a + b == b;
    }
  }

  // ---------------------------------------------------------------------
  // Stage 3: lower-casing

  predicate IsUpper(c: char) {
    'A' <= c <= 'Z' || ('\U{C0}' <= c <= '\U{DE}' && c != '\U{D7}')
  }

  /** `Character.toLowerCase` on the upper-case letters of ASCII and Latin-1. */
  function LowerChar(c: char): (l: char)
    ensures !IsUpper(l)
    ensures !IsUpper(c) ==> l == c
  {
    if IsUpper(c) then (c as int + 32) as char else c
  }

  /** `String.toLowerCase`, character by character. */
  function LowerCase(s: string): (r: string)
    ensures |r| == |s|
  {
    if s == [] then [] else [LowerChar(s[0])] + LowerCase(s[1..])
  }

  /** A lower-cased string has no upper-case letter left and lower-casing it again changes nothing. */
  lemma {:induction false} LowerCaseMeaning(s: string)
    ensures Avoids(LowerCase(s), IsUpper)
    ensures forall k :: 0 <= k < |s| ==> LowerCase(s)[k] == LowerChar(s[k])
    ensures LowerCase(LowerCase(s)) == LowerCase(s)
  {
    if s != [] {
      LowerCaseMeaning(s[1..]);
    }
  }

  lemma {:induction false} LowerCaseConcat(a: string, b: string)
    ensures LowerCase(a + b) == LowerCase(a) + LowerCase(b)
  {
    if a != [] {
      assert (a + b)[1..] == a[1..] + b;
      LowerCaseConcat(a[1..], b);
    } else {
      assert a + b == b;
    }
  }

  // ---------------------------------------------------------------------
  // Stage 4: removal of the characters the pattern matches

  /** `replaceAll(allowedCharactersRegex, "")` for a character-class pattern. */
  function Strip(s: string, pattern: AllowedPattern): string
  {
    if s == [] then []
    else (if Strips(pattern, s[0]) then [] else [s[0]]) + Strip(s[1..], pattern)
  }

  /** Stripping deletes exactly the characters the pattern matches, keeping the others in order. */
  lemma {:induction false} StripMeaning(s: string, pattern: AllowedPattern)
    ensures Avoids(Strip(s, pattern), c => Strips(pattern, c))
    ensures forall c :: c in Strip(s, pattern) <==> c in s && !Strips(pattern, c)
    ensures (forall k :: 0 <= k < |s| ==> !Strips(pattern, s[k])) ==> Strip(s, pattern) == s
  {
    if s != [] {
      StripMeaning(s[1..], pattern);
      assert s == [s[0]] + s[1..];
    }
  }

  lemma {:induction false} StripConcat(a: string, b: string, pattern: AllowedPattern)
    ensures Strip(a + b, pattern) == Strip(a, pattern) + Strip(b, pattern)
  {
    if a != [] {
      assert (a + b)[1..] == a[1..] + b;
      StripConcat(a[1..], b, pattern);
    } else {
      assert a + b == b;
    }
  }

  // ---------------------------------------------------------------------
  // Stages 5 and 6: each maximal run of a character class becomes one character

  /**
   * Every maximal run of characters satisfying `inRun` replaced by the one
   * character `rep`; `after` says that the text before `s` ended inside such a run.
   */
  function ReplaceRunsAfter(s: string, inRun: char -> bool, rep: char, after: bool): string
  {
    if s == [] then []
    else RunHead(s[0], inRun, rep, after) + ReplaceRunsAfter(s[1..], inRun, rep, inRun(s[0]))
  }

  /** The output for one character: `rep` when it starts a run, nothing inside a run, itself outside. */
  function RunHead(c: char, inRun: char -> bool, rep: char, after: bool): string
  {
    if !inRun(c) then [c] else if after then [] else [rep]
  }

  function ReplaceRuns(s: string, inRun: char -> bool, rep: char): string
  {
    ReplaceRunsAfter(s, inRun, rep, false)
  }

  /** Stage 5, `replaceAll("\\s+", whitespaceReplacement)`. */
  function ReplaceWhitespace(s: string, sep: Separator): string
  {
    ReplaceRuns(s, IsRegexSpace, sep)
  }

  function IsChar(c: char): char -> bool
  {
    d => d == c
  }

  /**
   * Stage 6, `replaceAll(quote(sep) + "{2,}", sep)`: a run of two or more
   * separators becomes one, a single one stays, so every run becomes one.
   */
  function CollapseSeparators(s: string, sep: Separator): string
  {
    ReplaceRuns(s, IsChar(sep), sep)
  }

  /** Whether the text `s`, preceded by text whose run state is `after`, ends inside a run. */
  function EndsInRun(s: string, inRun: char -> bool, after: bool): bool
  {
    if s == [] then after else inRun(s[|s| - 1])
  }

  /** Run replacement composes over concatenation, threading the run state. */
  lemma {:induction false} ReplaceRunsConcat(a: string, b: string, inRun: char -> bool, rep: char, after: bool)
    ensures ReplaceRunsAfter(a + b, inRun, rep, after)
         == ReplaceRunsAfter(a, inRun, rep, after) + ReplaceRunsAfter(b, inRun, rep, EndsInRun(a, inRun, after))
  {
    if a == [] {
      assert a + b == b;
    } else {
      var t := a[1..];
      var head := RunHead(a[0], inRun, rep, after);
      var state := EndsInRun(a, inRun, after);
      assert (a + b)[0] == a[0];
      assert (a + b)[1..] == t + b;
      assert ReplaceRunsAfter(a + b, inRun, rep, after) == head + ReplaceRunsAfter(t + b, inRun, rep, inRun(a[0]));
      assert ReplaceRunsAfter(a, inRun, rep, after) == head + ReplaceRunsAfter(t, inRun, rep, inRun(a[0]));
      assert EndsInRun(t, inRun, inRun(a[0])) == state;
      ReplaceRunsConcat(t, b, inRun, rep, inRun(a[0]));
      AppendAssociates(head, ReplaceRunsAfter(t, inRun, rep, inRun(a[0])), ReplaceRunsAfter(b, inRun, rep, state));
    }
  }

  /** A non-empty run of class characters with no run in progress becomes exactly one `rep`. */
  lemma {:induction false} ReplaceRunsOfRun(w: string, inRun: char -> bool, rep: char)
    requires w != [] && Avoids(w, c => !inRun(c))
    ensures ReplaceRunsAfter(w, inRun, rep, false) == [rep]
  {
    assert w[0] in w;
    assert forall c :: c in w[1..] ==> c in w;
    ReplaceRunsInsideRun(w[1..], inRun, rep);
  }

  /** Inside a run, further class characters produce nothing. */
  lemma {:induction false} ReplaceRunsInsideRun(w: string, inRun: char -> bool, rep: char)
    requires Avoids(w, c => !inRun(c))
    ensures ReplaceRunsAfter(w, inRun, rep, true) == []
  {
    if w != [] {
      assert w[0] in w;
      assert forall c :: c in w[1..] ==> c in w;
      ReplaceRunsInsideRun(w[1..], inRun, rep);
    }
  }

  /** Text without class characters is copied whatever the run state. */
  lemma {:induction false} ReplaceRunsOfPlain(s: string, inRun: char -> bool, rep: char, after: bool)
    requires Avoids(s, inRun)
    ensures ReplaceRunsAfter(s, inRun, rep, after) == s
  {
    if s != [] {
      ReplaceRunsOfPlain(s[1..], inRun, rep, false);
      assert s == [s[0]] + s[1..];
    }
  }

  /** The state before a non-class character does not matter. */
  lemma ReplaceRunsStateIrrelevant(s: string, inRun: char -> bool, rep: char)
    requires s == [] || !inRun(s[0])
    ensures ReplaceRunsAfter(s, inRun, rep, true) == ReplaceRunsAfter(s, inRun, rep, false)
  {
  }

  /**
   * The defining property of run replacement: a maximal run `w` between `a`
   * and `b` turns into one `rep`, and the text on either side is treated alone.
   */
  lemma ReplaceRunsMaximalRun(a: string, w: string, b: string, inRun: char -> bool, rep: char)
    requires w != [] && Avoids(w, c => !inRun(c))
    requires a == [] || !inRun(a[|a| - 1])
    requires b == [] || !inRun(b[0])
    ensures ReplaceRuns(a + w + b, inRun, rep) == ReplaceRuns(a, inRun, rep) + [rep] + ReplaceRuns(b, inRun, rep)
  {
    ReplaceRunsConcat(a + w, b, inRun, rep, false);
    ReplaceRunsConcat(a, w, inRun, rep, false);
    ReplaceRunsOfRun(w, inRun, rep);
    assert (a + w)[|a + w| - 1] == w[|w| - 1] && w[|w| - 1] in w;
    ReplaceRunsStateIrrelevant(b, inRun, rep);
  }

  /** The output holds only characters of the input and `rep`; class characters only if `rep` is one. */
  lemma {:induction false} ReplaceRunsCharacters(s: string, inRun: char -> bool, rep: char, after: bool)
    ensures forall c :: c in ReplaceRunsAfter(s, inRun, rep, after) ==> c in s || c == rep
    ensures !inRun(rep) ==> Avoids(ReplaceRunsAfter(s, inRun, rep, after), inRun)
  {
    if s != [] {
      ReplaceRunsCharacters(s[1..], inRun, rep, inRun(s[0]));
      assert s == [s[0]] + s[1..];
    }
  }

  /** Inside a run, the output does not start with a class character. */
  lemma {:induction false} ReplaceRunsAfterRunStart(s: string, inRun: char -> bool, rep: char)
    ensures ReplaceRunsAfter(s, inRun, rep, true) == [] || !inRun(ReplaceRunsAfter(s, inRun, rep, true)[0])
  {
    if s != [] && inRun(s[0]) {
      ReplaceRunsAfterRunStart(s[1..], inRun, rep);
    }
  }

  /** When `rep` belongs to the class, the output never holds two adjacent `rep`s. */
  lemma {:induction false} ReplaceRunsNoAdjacent(s: string, inRun: char -> bool, rep: char, after: bool)
    requires inRun(rep)
    ensures NoAdjacent(ReplaceRunsAfter(s, inRun, rep, after), rep)
  {
    if s != [] {
      var tail := ReplaceRunsAfter(s[1..], inRun, rep, inRun(s[0]));
      ReplaceRunsNoAdjacent(s[1..], inRun, rep, inRun(s[0]));
      if inRun(s[0]) {
        ReplaceRunsAfterRunStart(s[1..], inRun, rep);
      }
      var head := RunHead(s[0], inRun, rep, after);
      NoAdjacentConcat(head, tail, rep);
    }
  }

  /** Joining two strings creates an adjacent pair only at the seam. */
  lemma NoAdjacentConcat(a: string, b: string, c: char)
    requires NoAdjacent(a, c) && NoAdjacent(b, c)
    requires a == [] || b == [] || a[|a| - 1] != c || b[0] != c
    ensures NoAdjacent(a + b, c)
  {
    var s := a + b;
    forall k | 0 <= k < |s| - 1 ensures !(s[k] == c && s[k + 1] == c) {
      if k + 1 < |a| {
        assert s[k] == a[k] && s[k + 1] == a[k + 1];
      } else if k >= |a| {
        assert s[k] == b[k - |a|] && s[k + 1] == b[k + 1 - |a|];
      }
    }
  }

  // ---------------------------------------------------------------------
  // Stage 7: trimming separators at both edges

  /** `replaceAll("^" + quote(sep) + "+", "")`: the separator run at the start removed. */
  function TrimLeading(s: string, sep: char): (r: string)
    ensures |r| <= |s| && r == s[|s| - |r|..]
    ensures forall k :: 0 <= k < |s| - |r| ==> s[k] == sep
    ensures r != [] ==> r[0] != sep
  {
    if s != [] && s[0] == sep then TrimLeading(s[1..], sep) else s
  }

  /** `s` without the separator run at its end. */
  function DropTrailingRun(s: string, sep: char): (r: string)
    ensures |r| <= |s| && r == s[..|r|]
    ensures forall k :: |r| <= k < |s| ==> s[k] == sep
    ensures r != [] ==> r[|r| - 1] != sep
  {
    if s != [] && s[|s| - 1] == sep then DropTrailingRun(s[..|s| - 1], sep) else s
  }

  /**
   * `replaceAll(quote(sep) + "+$", "")`. Without MULTILINE, `$` matches at the
   * end of the input and also just before a line terminator that ends it
   * ("\r\n" counting as one terminator), so the separator run removed is the
   * one at the end or the one right before that final terminator.
   */
  function TrimTrailing(s: string, sep: Separator): string
  {
    if s != [] && s[|s| - 1] == sep then DropTrailingRun(s, sep)
    else if |s| >= 2 && s[|s| - 2] == '\r' && s[|s| - 1] == '\n' then DropTrailingRun(s[..|s| - 2], sep) + s[|s| - 2..]
    else if s != [] && IsLineTerminator(s[|s| - 1]) then DropTrailingRun(s[..|s| - 1], sep) + s[|s| - 1..]
    else s
  }

  /** Stage 7: leading trim, then trailing trim. */
  function TrimSeparators(s: string, sep: Separator): string
  {
    TrimTrailing(TrimLeading(s, sep), sep)
  }

  /**
   * Trimming leaves no separator at either edge, only deletes characters and
   * creates no pair of adjacent separators.
   */
  lemma TrimSeparatorsMeaning(s: string, sep: Separator)
    ensures var r := TrimSeparators(s, sep);
      r == [] || (r[0] != sep && r[|r| - 1] != sep)
    ensures forall c :: c in TrimSeparators(s, sep) ==> c in s
    ensures NoAdjacent(s, sep) ==> NoAdjacent(TrimSeparators(s, sep), sep)
  {
    var x := TrimLeading(s, sep);
    SliceFacts(s, x, |s| - |x|, sep);
    TrimTrailingMeaning(x, sep);
  }

  /** Trailing trim of a text that does not start with the separator. */
  lemma TrimTrailingMeaning(x: string, sep: Separator)
    requires x == [] || x[0] != sep
    ensures var r := TrimTrailing(x, sep);
      r == [] || (r[0] != sep && r[|r| - 1] != sep)
    ensures forall c :: c in TrimTrailing(x, sep) ==> c in x
    ensures NoAdjacent(x, sep) ==> NoAdjacent(TrimTrailing(x, sep), sep)
  {
    var n := |x|;
    if n > 0 && x[n - 1] == sep {
      SliceFacts(x, DropTrailingRun(x, sep), 0, sep);
    } else if n >= 2 && x[n - 2] == '\r' && x[n - 1] == '\n' {
      DropBeforeTerminator(x, 2, sep);
    } else if n > 0 && IsLineTerminator(x[n - 1]) {
      DropBeforeTerminator(x, 1, sep);
    }
  }

  /** Dropping the separator run before the last `m` characters, all line terminators. */
  lemma DropBeforeTerminator(x: string, m: nat, sep: Separator)
    requires m <= |x| && (x == [] || x[0] != sep)
    requires forall k :: |x| - m <= k < |x| ==> IsLineTerminator(x[k])
    requires m > 0
    ensures var r := DropTrailingRun(x[..|x| - m], sep) + x[|x| - m..];
      r[0] != sep && r[|r| - 1] != sep
    ensures forall c :: c in DropTrailingRun(x[..|x| - m], sep) + x[|x| - m..] ==> c in x
    ensures NoAdjacent(x, sep) ==> NoAdjacent(DropTrailingRun(x[..|x| - m], sep) + x[|x| - m..], sep)
  {
    var d := DropTrailingRun(x[..|x| - m], sep);
    var t := x[|x| - m..];
    assert x[..|x| - m][..|d|] == x[..|d|];
    SliceFacts(x, d, 0, sep);
    SliceFacts(x, t, |x| - m, sep);
    TerminatorSuffix(d, t, sep);
  }

  /** A slice keeps the characters, the first character (when it starts at 0) and the no-adjacent property. */
  lemma SliceFacts(x: string, d: string, from: nat, sep: char)
    requires from + |d| <= |x| && d == x[from..from + |d|]
    ensures from == 0 && d != [] ==> d[0] == x[0]
    ensures forall c :: c in d ==> c in x
    ensures NoAdjacent(x, sep) ==> NoAdjacent(d, sep)
  {
    assert forall k :: 0 <= k < |d| ==> d[k] == x[from + k];
  }

  /** A suffix of line terminators, which are never separators, keeps the edge and the no-adjacent property. */
  lemma TerminatorSuffix(d: string, t: string, sep: Separator)
    requires t != [] && forall k :: 0 <= k < |t| ==> IsLineTerminator(t[k])
    ensures (d + t)[|d + t| - 1] != sep
    ensures d == [] ==> (d + t)[0] != sep
    ensures NoAdjacent(d, sep) ==> NoAdjacent(d + t, sep)
  {
    assert (d + t)[|d + t| - 1] == t[|t| - 1];
    if NoAdjacent(d, sep) {
      assert NoAdjacent(t, sep);
      NoAdjacentConcat(d, t, sep);
    }
  }

  /** Trimming changes nothing when neither edge is a separator and no terminator ends the text. */
  lemma TrimSeparatorsKeepsTrimmed(s: string, sep: Separator)
    requires s == [] || (s[0] != sep && s[|s| - 1] != sep && !IsLineTerminator(s[|s| - 1]))
    ensures TrimSeparators(s, sep) == s
  {
  }

  // ---------------------------------------------------------------------
  // The whole chain

  /** The text stage 5 receives: stages 1 to 4 applied. */
  function BeforeSeparators(config: SlugifyConfig, heading: string): string
  {
    var replaced := ApplyReplacements(heading, config.replacements);
    var unaccented := if config.removeAccents then StripAccents(replaced) else replaced;
    var lowered := if config.toLowerCase then LowerCase(unaccented) else unaccented;
    if config.stripNonAlphanumeric then Strip(lowered, config.allowedCharactersRegex) else lowered
  }

  /** Stages 5 to 7 applied to `s`. */
  function SeparatorStages(config: SlugifyConfig, s: string): string
  {
    var sep := config.whitespaceReplacement;
    var separated := ReplaceWhitespace(s, sep);
    var collapsed := if config.collapseDashes then CollapseSeparators(separated, sep) else separated;
    if config.trimEdges then TrimSeparators(collapsed, sep) else collapsed
  }

  /**
   * `toSlug`: the seven stages in their fixed order. Stripping with a pattern
   * that does not compile throws at stage 4.
   */
  function Slugify(config: SlugifyConfig, heading: string): (r: Result<string>)
    ensures r.Failure? <==> config.stripNonAlphanumeric && config.allowedCharactersRegex.Invalid?
    ensures r.Failure? ==> r.error == PatternSyntax
  {
    if config.stripNonAlphanumeric && config.allowedCharactersRegex.Invalid? then
      Failure(PatternSyntax)
    else
      Success(SeparatorStages(config, BeforeSeparators(config, heading)))
  }

  /** Stages 5 to 7 keep out every character class the separator is not in. */
  lemma SeparatorStagesAvoid(config: SlugifyConfig, s: string, bad: char -> bool)
    requires Avoids(s, bad) && !bad(config.whitespaceReplacement)
    ensures Avoids(SeparatorStages(config, s), bad)
  {
    var sep := config.whitespaceReplacement;
    var separated := ReplaceWhitespace(s, sep);
    ReplaceRunsCharacters(s, IsRegexSpace, sep, false);
    assert Avoids(separated, bad);
    var collapsed := if config.collapseDashes then CollapseSeparators(separated, sep) else separated;
    ReplaceRunsCharacters(separated, IsChar(sep), sep, false);
    assert Avoids(collapsed, bad);
    TrimSeparatorsMeaning(collapsed, sep);
  }

  /** A separator that is not whitespace leaves no whitespace in the slug. */
  lemma SlugHasNoWhitespace(config: SlugifyConfig, heading: string)
    requires !IsRegexSpace(config.whitespaceReplacement)
    requires Slugify(config, heading).Success?
    ensures Avoids(Slugify(config, heading).value, IsRegexSpace)
  {
    var sep := config.whitespaceReplacement;
    var s := BeforeSeparators(config, heading);
    var separated := ReplaceWhitespace(s, sep);
    ReplaceRunsCharacters(s, IsRegexSpace, sep, false);
    var collapsed := if config.collapseDashes then CollapseSeparators(separated, sep) else separated;
    ReplaceRunsCharacters(separated, IsChar(sep), sep, false);
    assert Avoids(collapsed, IsRegexSpace);
    TrimSeparatorsMeaning(collapsed, sep);
  }

  /** With stripping on, no stripped character survives unless the separator itself is one. */
  lemma SlugHasNoStrippedCharacters(config: SlugifyConfig, heading: string)
    requires config.stripNonAlphanumeric && config.allowedCharactersRegex.CharClass?
    requires !Strips(config.allowedCharactersRegex, config.whitespaceReplacement)
    ensures Slugify(config, heading).Success?
    ensures Avoids(Slugify(config, heading).value, c => Strips(config.allowedCharactersRegex, c))
  {
    var p := config.allowedCharactersRegex;
    var replaced := ApplyReplacements(heading, config.replacements);
    var unaccented := if config.removeAccents then StripAccents(replaced) else replaced;
    var lowered := if config.toLowerCase then LowerCase(unaccented) else unaccented;
    StripMeaning(lowered, p);
    SeparatorStagesAvoid(config, BeforeSeparators(config, heading), c => Strips(p, c));
  }

  /** With separator collapsing on, the slug never holds two adjacent separators. */
  lemma SlugHasNoDoubleSeparator(config: SlugifyConfig, heading: string)
    requires config.collapseDashes
    requires Slugify(config, heading).Success?
    ensures NoAdjacent(Slugify(config, heading).value, config.whitespaceReplacement)
  {
    var sep := config.whitespaceReplacement;
    var separated := ReplaceWhitespace(BeforeSeparators(config, heading), sep);
    ReplaceRunsNoAdjacent(separated, IsChar(sep), sep, false);
    TrimSeparatorsMeaning(CollapseSeparators(separated, sep), sep);
  }

  /** With edge trimming on, the slug neither starts nor ends with the separator. */
  lemma SlugHasTrimmedEdges(config: SlugifyConfig, heading: string)
    requires config.trimEdges
    requires Slugify(config, heading).Success?
    ensures var r := Slugify(config, heading).value;
      r == [] || (r[0] != config.whitespaceReplacement && r[|r| - 1] != config.whitespaceReplacement)
  {
    var sep := config.whitespaceReplacement;
    var separated := ReplaceWhitespace(BeforeSeparators(config, heading), sep);
    var collapsed := if config.collapseDashes then CollapseSeparators(separated, sep) else separated;
    assert Slugify(config, heading).value == TrimSeparators(collapsed, sep);
    TrimSeparatorsMeaning(collapsed, sep);
  }

  /**
   * With no replacements and every toggle off, the only change is that each
   * maximal whitespace run becomes one separator.
   */
  lemma SlugOfPlainConfig(config: SlugifyConfig, a: string, w: string, b: string)
    requires config.replacements == []
    requires !config.toLowerCase && !config.stripNonAlphanumeric && !config.trimEdges
    requires !config.removeAccents && !config.collapseDashes
    requires w != [] && Avoids(w, c => !IsRegexSpace(c))
    requires a == [] || !IsRegexSpace(a[|a| - 1])
    requires b == [] || !IsRegexSpace(b[0])
    ensures Slugify(config, a + w + b).Success?
    ensures Slugify(config, a + w + b).value
         == Slugify(config, a).value + [config.whitespaceReplacement] + Slugify(config, b).value
    ensures Avoids(a, IsRegexSpace) ==> Slugify(config, a).value == a
  {
    ReplaceRunsMaximalRun(a, w, b, IsRegexSpace, config.whitespaceReplacement);
    if Avoids(a, IsRegexSpace) {
      ReplaceRunsOfPlain(a, IsRegexSpace, config.whitespaceReplacement, false);
    }
  }

  /**
   * `DefaultSlugStrategy.toSlug`: the replacements loop, then the optional
   * stages, each reassigning the local `slug`. It changes no state.
   */
  method ToSlug(config: SlugifyConfig, heading: string) returns (r: Result<string>)
    ensures r == Slugify(config, heading)
  {
    var slug := heading;
    var replacements := config.replacements;
    for i := 0 to |replacements|
      invariant ApplyReplacements(slug, replacements[i..]) == ApplyReplacements(heading, replacements)
    {
      assert replacements[i..][1..] == replacements[i + 1..];
      slug := Replace(slug, replacements[i].0, replacements[i].1);
    }
    if config.removeAccents {
      slug := StripAccents(slug);
    }
    if config.toLowerCase {
      slug := LowerCase(slug);
    }
    if config.stripNonAlphanumeric {
      if config.allowedCharactersRegex.Invalid? {
        return Failure(PatternSyntax);
      }
      slug := Strip(slug, config.allowedCharactersRegex);
    }
    var sep := config.whitespaceReplacement;
    slug := ReplaceWhitespace(slug, sep);
    if config.collapseDashes {
      slug := CollapseSeparators(slug, sep);
    }
    if config.trimEdges {
      slug := TrimSeparators(slug, sep);
    }
    return Success(slug);
  }
}
