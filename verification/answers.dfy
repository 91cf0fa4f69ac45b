/**
 * Text helpers of the match server (app.py): folding a submitted answer before
 * comparing it with the task's answer, and clamping a difficulty label.
 *
 * Python's `str.strip()` removes every character for which `str.isspace()`
 * holds; `IsSpace` lists that set. Python's `str.lower()` is modelled on the
 * scripts the quiz uses: ASCII, Latin-1 and the basic Cyrillic block.
 */
module Answers {

  /** The characters `str.strip()` removes. */
  predicate IsSpace(c: char)
  {
    c == ' ' || ('\t' <= c <= '\r') || ('\U{1c}' <= c <= '\U{1f}') ||
    c == '\U{85}' || c == '\U{a0}' || c == '\U{1680}' ||
    ('\U{2000}' <= c <= '\U{200a}') || c == '\U{2028}' || c == '\U{2029}' ||
    c == '\U{202f}' || c == '\U{205f}' || c == '\U{3000}'
  }

  /** Neither end of `s` is whitespace. */
  predicate Trimmed(s: string)
  {
    s == [] || (!IsSpace(s[0]) && !IsSpace(s[|s| - 1]))
  }

  /** `s` without its leading whitespace. */
  function StripLeft(s: string): (r: string)
    ensures |r| <= |s|
  {
    if |s| > 0 && IsSpace(s[0]) then StripLeft(s[1..]) else s
  }

  /** How many whitespace characters `StripLeft` removes from the front of `s`. */
  function LeadingSpace(s: string): (n: nat)
    ensures n <= |s|
  {
    |s| - |StripLeft(s)|
  }

  /** `StripLeft` drops a run of whitespace from the front, and what is left does not start with whitespace. */
  lemma {:induction false} StripLeftSplits(s: string)
    ensures StripLeft(s) == s[LeadingSpace(s)..]
    ensures forall i :: 0 <= i < LeadingSpace(s) ==> IsSpace(s[i])
    ensures StripLeft(s) == [] || !IsSpace(StripLeft(s)[0])
  {
    if |s| > 0 && IsSpace(s[0]) {
      StripLeftSplits(s[1..]);
      assert LeadingSpace(s) == LeadingSpace(s[1..]) + 1;
      forall i | 1 <= i < LeadingSpace(s) ensures IsSpace(s[i]) {
        assert s[i] == s[1..][i - 1];
      }
    }
  }

  /** `s` without its trailing whitespace. */
  function StripRight(s: string): (r: string)
    ensures |r| <= |s|
  {
    if |s| > 0 && IsSpace(s[|s| - 1]) then StripRight(s[..|s| - 1]) else s
  }

  /** `StripRight` drops a run of whitespace from the back, and what is left does not end with whitespace. */
  lemma {:induction false} StripRightSplits(s: string)
    ensures StripRight(s) == s[..|StripRight(s)|]
    ensures forall i :: |StripRight(s)| <= i < |s| ==> IsSpace(s[i])
    ensures StripRight(s) == [] || !IsSpace(StripRight(s)[|StripRight(s)| - 1])
  {
    if |s| > 0 && IsSpace(s[|s| - 1]) {
      var t := s[..|s| - 1];
      StripRightSplits(t);
      assert t[..|StripRight(t)|] == s[..|StripRight(t)|];
      forall i | |StripRight(s)| <= i < |s| - 1 ensures IsSpace(s[i]) {
        assert s[i] == t[i];
      }
    }
  }

  /** Python's `s.strip()`. */
  function Strip(s: string): (r: string)
    ensures |r| <= |s|
  {
    StripRight(StripLeft(s))
  }

  /**
   * `s.strip()` is the infix of `s` after its leading whitespace; everything
   * removed at either end is whitespace, and what is left starts and ends with
   * something else.
   */
  lemma StripSplits(s: string)
    ensures Trimmed(Strip(s))
    ensures LeadingSpace(s) + |Strip(s)| <= |s|
    ensures Strip(s) == s[LeadingSpace(s)..LeadingSpace(s) + |Strip(s)|]
    ensures forall i :: 0 <= i < LeadingSpace(s) ==> IsSpace(s[i])
    ensures forall i :: LeadingSpace(s) + |Strip(s)| <= i < |s| ==> IsSpace(s[i])
  {
    StripLeftSplits(s);
    StripEnds(s);
    StripInfix(s);
  }

  /** Neither end of `s.strip()` is whitespace. */
  lemma StripEnds(s: string)
    ensures Trimmed(Strip(s))
  {
    var l := StripLeft(s);
    var r := StripRight(l);
    StripLeftSplits(s);
    StripRightSplits(l);
    assert r == [] || r[0] == l[0];
  }

  /** `s.strip()` sits in `s` right after the leading whitespace, and only whitespace follows it. */
  lemma StripInfix(s: string)
    ensures LeadingSpace(s) + |Strip(s)| <= |s|
    ensures Strip(s) == s[LeadingSpace(s)..LeadingSpace(s) + |Strip(s)|]
    ensures forall i :: LeadingSpace(s) + |Strip(s)| <= i < |s| ==> IsSpace(s[i])
  {
    var l := StripLeft(s);
    var r := StripRight(l);
    var a := LeadingSpace(s);
    StripLeftSplits(s);
    StripRightSplits(l);
    assert s[a..][..|r|] == s[a..a + |r|];
    forall i | a + |r| <= i < |s| ensures IsSpace(s[i]) {
      assert s[i] == l[i - a];
    }
  }

  /** A string that is already trimmed is left alone by `Strip`. */
  lemma {:induction false} StripTrimmed(s: string)
    requires Trimmed(s)
    ensures Strip(s) == s
  {
  }

  /** `s.replace(",", ".")`: the decimal comma becomes a decimal point, nothing else moves. */
  function CommaToPoint(s: string): (r: string)
    ensures |r| == |s| && ',' !in r
    ensures forall i :: 0 <= i < |s| && s[i] != ',' ==> r[i] == s[i]
    ensures forall i :: 0 <= i < |s| && s[i] == ',' ==> r[i] == '.'
  {
    seq(|s|, i requires 0 <= i < |s| => if s[i] == ',' then '.' else s[i])
  }

  /** Lower-case of one character: ASCII, Latin-1 and basic Cyrillic capitals. */
  function LowerChar(c: char): (r: char)
    ensures IsSpace(r) <==> IsSpace(c)
    ensures r == ',' <==> c == ','
  {
    if 'A' <= c <= 'Z' then (c as int + 0x20) as char
    else if 'À' <= c <= 'Þ' && c != '×' then (c as int + 0x20) as char
    else if 'Ѐ' <= c <= 'Џ' then (c as int + 0x50) as char
    else if 'А' <= c <= 'Я' then (c as int + 0x20) as char
    else c
  }

  /** Lower-casing a character that is already lower-case changes nothing. */
  lemma LowerCharIdempotent(c: char)
    ensures LowerChar(LowerChar(c)) == LowerChar(c)
  {
  }

  /** `s.lower()`, character by character. */
  function Lower(s: string): (r: string)
    ensures |r| == |s|
    ensures forall i :: 0 <= i < |s| ==> r[i] == LowerChar(s[i])
  {
    seq(|s|, i requires 0 <= i < |s| => LowerChar(s[i]))
  }

  /** `normalize_answer`: trim, decimal comma to point, lower-case. */
  function NormalizeAnswer(s: string): (r: string)
    ensures |r| == |Strip(s)|
  {
    Lower(CommaToPoint(Strip(s)))
  }

  /** A normalized answer has no comma and no whitespace at either end. */
  lemma NormalizedShape(s: string)
    ensures ',' !in NormalizeAnswer(s)
    ensures Trimmed(NormalizeAnswer(s))
  {
    StripSplits(s);
    var r := NormalizeAnswer(s);
    assert forall i :: 0 <= i < |r| ==> r[i] != ',';
  }

  /** `is_correct`: two answers agree once both are normalized. */
  predicate IsCorrect(submitted: string, correct: string)
    ensures IsCorrect(submitted, correct) ==> |Strip(submitted)| == |Strip(correct)|
  {
    NormalizeAnswer(submitted) == NormalizeAnswer(correct)
  }

  /** Normalizing twice is normalizing once. */
  lemma {:induction false} NormalizeIdempotent(s: string)
    ensures NormalizeAnswer(NormalizeAnswer(s)) == NormalizeAnswer(s)
  {
    var n := NormalizeAnswer(s);
    NormalizedShape(s);
    StripTrimmed(n);
    assert CommaToPoint(n) == n;
    var t := CommaToPoint(Strip(s));
    assert forall i :: 0 <= i < |n| ==> LowerChar(n[i]) == n[i] by {
      forall i | 0 <= i < |n| ensures LowerChar(n[i]) == n[i] {
        assert n[i] == LowerChar(t[i]);
        LowerCharIdempotent(t[i]);
      }
    }
    assert Lower(n) == n;
  }

  /** `is_correct` is symmetric in its two arguments. */
  lemma IsCorrectSymmetric(a: string, b: string)
    ensures IsCorrect(a, b) <==> IsCorrect(b, a)
  {
  }

  /** Submitting an already normalized answer is judged exactly like submitting the raw one. */
  lemma {:induction false} IsCorrectUpToNormalization(a: string, b: string)
    ensures IsCorrect(NormalizeAnswer(a), b) <==> IsCorrect(a, b)
    ensures IsCorrect(a, a)
  {
    NormalizeIdempotent(a);
  }

  /** `" 3,5 ".strip()` is `"3,5"`. */
  lemma StripExample()
    ensures Strip(" 3,5 ") == "3,5"
  {
    var raw := " 3,5 ";
    assert IsSpace(raw[0]) && !IsSpace(raw[1]);
    assert raw[1..] == "3,5 ";
    assert StripLeft(raw[1..]) == "3,5 ";
    assert StripLeft(raw) == "3,5 ";
    var left := "3,5 ";
    assert IsSpace(left[3]) && !IsSpace(left[2]);
    assert left[..3] == "3,5";
    assert StripRight(left[..3]) == "3,5";
  }

  /** Surrounding whitespace and a decimal comma do not change the verdict. */
  lemma DecimalCommaExample()
    ensures IsCorrect(" 3,5 ", "3.5")
  {
    StripExample();
    var t := CommaToPoint("3,5");
    assert t[0] == '3' && t[1] == '.' && t[2] == '5';
    assert t == "3.5";
    StripTrimmed("3.5");
    assert CommaToPoint("3.5") == "3.5";
    var l := Lower("3.5");
    assert l[0] == '3' && l[1] == '.' && l[2] == '5';
    assert l == "3.5";
  }

  /** Capital Cyrillic letters are folded. */
  lemma CapitalsExample()
    ensures IsCorrect("Пи", "пи")
  {
    StripTrimmed("Пи");
    StripTrimmed("пи");
    assert CommaToPoint("Пи") == "Пи";
    assert CommaToPoint("пи") == "пи";
    var l := Lower("Пи");
    assert l[0] == 'п' && l[1] == 'и';
    assert l == "пи";
    var m := Lower("пи");
    assert m[0] == 'п' && m[1] == 'и';
    assert m == "пи";
  }

  /** The comma is read as a decimal point, not dropped. */
  lemma CommaIsNotDroppedExample()
    ensures !IsCorrect("3,5", "35")
  {
    assert NormalizeAnswer("3,5")[1] == '.';
    StripTrimmed("35");
    assert NormalizeAnswer("35")[1] == '5';
  }

  /** The three difficulty labels the task bank stores, and the default. */
  const DIFFICULTIES: seq<string> := ["Легкая", "Средняя", "Сложная"]
  const DEFAULT_DIFFICULTY: string := "Средняя"

  /**
   * `normalize_difficulty`: the trimmed label when it is one of the three, otherwise
   * the default. Either way, one of the three labels.
   */
  function NormalizeDifficulty(val: string): (r: string)
    ensures r in DIFFICULTIES
    ensures Strip(val) in DIFFICULTIES ==> r == Strip(val)
    ensures Strip(val) !in DIFFICULTIES ==> r == DEFAULT_DIFFICULTY
  {
    var v := Strip(val);
    if v in DIFFICULTIES then v else DEFAULT_DIFFICULTY
  }

  /** Every label is trimmed, so `normalize_difficulty` is the identity on the labels and idempotent. */
  lemma {:induction false} NormalizeDifficultyFixes(d: string, x: string)
    requires d in DIFFICULTIES
    ensures NormalizeDifficulty(d) == d
    ensures NormalizeDifficulty(NormalizeDifficulty(x)) == NormalizeDifficulty(x)
  {
    LabelTrimmed(d);
    StripTrimmed(d);
    var r := NormalizeDifficulty(x);
    LabelTrimmed(r);
    StripTrimmed(r);
  }

  /** Each difficulty label starts and ends with a letter. */
  lemma LabelTrimmed(d: string)
    requires d in DIFFICULTIES
    ensures Trimmed(d)
  {
    assert d == DIFFICULTIES[0] || d == DIFFICULTIES[1] || d == DIFFICULTIES[2];
  }
}
