/** The non-interactive parts of `generate_cfi_code` in the detailed
    validator: how much of a user-supplied prefix is kept, the rule each
    prompt applies to an answer, and the filling of the remaining attribute
    positions followed by the final re-validation. */
module Generator {
  import opened Wrappers
  import opened Ascii
  import opened Taxonomy
  import Validator

  /** The rule applied to a prefix character, or to an answer, at attribute
      position `position`: a position with a table takes a letter it lists
      or 'X', a position without one takes any letter. */
  predicate AttributeKept(category: char, group: char, position: int, c: char)
  {
    match AttributeCodes(category, group, position)
    case Some(codes) => c in codes || c == 'X'
    case None => IsAlpha(c)
  }

  /** `AttributeKept` applied to the character of `code` at position `p`. */
  predicate KeptAt(code: string, p: int)
    requires 2 <= |code| && 1 <= p <= |code|
  {
    AttributeKept(code[0], code[1], p, code[p - 1])
  }

  /** The attribute characters of `code`, from position 3 on, each pass
      `AttributeKept` for the code's category and group. */
  predicate KeptAttributes(code: string)
    requires |code| >= 2
  {
    forall p :: 3 <= p <= |code| ==> KeptAt(code, p)
  }

  /** How many of the first two characters of an upper-cased prefix are
      kept: none when the category is unknown, the category alone when the
      group is not one of its groups, both otherwise. */
  function ClassLength(u: string): (n: nat)
    ensures n <= 2 && n <= |u|
    ensures n == 0 <==> |u| == 0 || u[0] !in CATEGORY_CODES
    ensures n == 2 <==> |u| >= 2 && IsLegalPair(u[0], u[1])
  {
    if |u| == 0 || u[0] !in CATEGORY_CODES then 0
    else if |u| == 1 || u[1] !in GroupCodes(u[0]) then 1
    else 2
  }

  /** What is kept of an upper-cased prefix `u`, stated without the order of
      the steps: a prefix of `u` of at most six characters; the category and
      group as far as `ClassLength` goes; when both are kept, every
      following character up to the first one `AttributeKept` refuses. */
  predicate KeptPrefix(u: string, code: string)
  {
    && |code| <= 6 && |code| <= |u| && code == u[..|code|]
    && (ClassLength(u) < 2 ==> |code| == ClassLength(u))
    && (ClassLength(u) == 2 ==>
          && |code| >= 2
          && KeptAttributes(code)
          && (|code| < 6 && |code| < |u| ==> !AttributeKept(u[0], u[1], |code| + 1, u[|code|])))
  }

  /** Lines 542-591 of `generate_cfi_code`: the prefix is upper-cased, then
      its category, its group and its attribute characters are taken in
      turn while they are legal.  Returns the kept code and the category and
      group it fixes (None while still to be asked). */
  method ResumePrefix(initialPrefix: string) returns (code: string, category: Option<char>, group: Option<char>)
    ensures KeptPrefix(UpperString(initialPrefix), code)
    ensures category == (if |code| >= 1 then Some(code[0]) else None)
    ensures group == (if |code| >= 2 then Some(code[1]) else None)
  {
    var prefix := UpperString(initialPrefix);
    ghost var u := prefix;
    code := "";
    category := None;
    group := None;

    if |prefix| >= 1 {
      if prefix[0] in CATEGORY_CODES {
        category := Some(prefix[0]);
        code := code + [prefix[0]];
      } else {
        // An unknown category discards the whole prefix.
        prefix := "";
      }
    }
    assert ClassLength(u) == 0 ==> code == "" && prefix == "";

    if |prefix| >= 2 && category.Some? {
      if prefix[1] in GroupCodes(category.value) {
        group := Some(prefix[1]);
        code := code + [prefix[1]];
      } else {
        // An unknown group keeps the category only.
        prefix := prefix[..1];
      }
    }
    assert ClassLength(u) == 1 ==> code == u[..1] && |prefix| <= 1;
    assert ClassLength(u) == 2 ==> code == u[..2] && prefix == u && group.Some?;

    if |prefix| > 2 && category.Some? && group.Some? {
      code := KeepAttributes(prefix, code);
    }
  }

  /** The loop of lines 570-591: attribute characters of `u` are appended
      to the kept category and group, positions 3 to 6, stopping at the
      first one refused. */
  method KeepAttributes(u: string, code0: string) returns (code: string)
    requires |u| > 2 && code0 == u[..2]
    ensures 2 <= |code| <= 6 && |code| <= |u| && code == u[..|code|]
    ensures KeptAttributes(code)
    ensures |code| < 6 && |code| < |u| ==> !AttributeKept(u[0], u[1], |code| + 1, u[|code|])
  {
    code := code0;
    var category, group := u[0], u[1];
    var end := if |u| < 6 then |u| else 6;
    var i := 2;
    while i < end
      invariant 2 <= i <= end
      invariant |code| == i && code == u[..i]
      invariant KeptAttributes(code)
    {
      var c := u[i];
      var position := i + 1;
      match AttributeCodes(category, group, position) {
        case Some(codes) =>
          if c in codes || c == 'X' {
            KeptExtend(code, c);
            code := code + [c];
          } else {
            return;
          }
        case None =>
          if IsAlpha(c) {
            KeptExtend(code, c);
            code := code + [c];
          } else {
            return;
          }
      }
      assert code == u[..i + 1];
      i := i + 1;
    }
  }

  /** At most one code satisfies `KeptPrefix` for a given prefix, so the
      declarative reading pins the result of `ResumePrefix` down. */
  lemma KeptPrefixUnique(u: string, a: string, b: string)
    requires KeptPrefix(u, a) && KeptPrefix(u, b)
    ensures a == b
  {
    NotLonger(u, a, b);
    NotLonger(u, b, a);
    assert a == u[..|a|] && b == u[..|b|];
  }

  /** A kept code is never longer than another code kept of the same
      prefix: the shorter one stopped at a character the longer one
      would have kept. */
  lemma NotLonger(u: string, a: string, b: string)
    requires KeptPrefix(u, a) && KeptPrefix(u, b)
    ensures |a| <= |b|
  {
    if |b| < |a| {
      assert ClassLength(u) == 2;
      assert 2 <= |b| < 6 && |b| < |u|;
      NextKept(u, a, |b|);
    }
  }

  /** Every attribute character a kept code holds passes `AttributeKept`
      for the prefix's own category and group. */
  lemma NextKept(u: string, code: string, k: int)
    requires KeptPrefix(u, code) && 2 <= k < |code|
    ensures AttributeKept(u[0], u[1], k + 1, u[k])
  {
    assert KeptAt(code, k + 1);
  }

  /** Appending a character `AttributeKept` admits keeps every attribute
      kept. */
  lemma KeptExtend(code: string, c: char)
    requires |code| >= 2 && KeptAttributes(code)
    requires AttributeKept(code[0], code[1], |code| + 1, c)
    ensures KeptAttributes(code + [c])
  {
    var longer := code + [c];
    forall p | 3 <= p <= |longer|
      ensures KeptAt(longer, p)
    {
      if p <= |code| {
        assert KeptAt(code, p);
      }
    }
  }

  /** The category and group of a legal pair are upper-case letters. */
  lemma LegalPairIsUpper(category: char, group: char)
    requires IsLegalPair(category, group)
    ensures IsUpper(category) && IsUpper(group)
  {
    GroupsInvariant(category);
    var i :| 0 <= i < |GroupCodes(category)| && GroupCodes(category)[i] == group;
  }

  /** A character `AttributeKept` admits is a letter, and at a position with
      a table it is one the table lists, upper-case. */
  lemma KeptIsListed(category: char, group: char, position: int, c: char)
    requires AttributeKept(category, group, position, c)
    ensures IsAlpha(c)
    ensures AttributeCodes(category, group, position).Some? ==>
      IsUpper(c) && c in AttributeCodes(category, group, position).value
  {
    RulesInvariant(category, group, position);
    var codes := AttributeCodes(category, group, position);
    if codes.Some? && c in codes.value {
      var i :| 0 <= i < |codes.value| && codes.value[i] == c;
    }
  }

  /** Six characters whose pair is legal and whose attributes all pass
      `AttributeKept` form a code `validate` accepts. */
  lemma {:induction false} CompletedIsValid(code: string)
    requires |code| == 6 && IsLegalPair(code[0], code[1]) && KeptAttributes(code)
    ensures Validator.Validate(code).0
  {
    LegalPairIsUpper(code[0], code[1]);
    forall i | 2 <= i < 6
      ensures IsAlpha(code[i])
      ensures AttributeCodes(code[0], code[1], i + 1).Some? ==>
        IsUpper(code[i]) && code[i] in AttributeCodes(code[0], code[1], i + 1).value
    {
      assert KeptAt(code, i + 1);
      KeptIsListed(code[0], code[1], i + 1, code[i]);
    }
    var u := UpperString(code);
    assert u[0] == code[0] && u[1] == code[1];
    forall p | 3 <= p <= 6 && AttributeCodes(u[0], u[1], p).Some?
      ensures u[p - 1] in AttributeCodes(u[0], u[1], p).value
    {
      assert u[p - 1] == code[p - 1];
    }
    Validator.ValidIff(code);
  }

  /** `n` 'X' characters, the filler of unset positions. */
  function Filler(n: nat): (s: string)
    ensures |s| == n && forall i :: 0 <= i < n ==> s[i] == 'X'
  {
    seq(n, _ => 'X')
  }

  /** A kept prefix of at least two characters, padded with 'X' to six,
      is a code `validate` accepts: 'X' passes every attribute rule. */
  lemma PaddedPrefixIsValid(u: string, code: string)
    requires KeptPrefix(u, code) && |code| >= 2
    ensures Validator.Validate(code + Filler(6 - |code|)).0
  {
    var full := code + Filler(6 - |code|);
    forall p | 3 <= p <= 6
      ensures KeptAt(full, p)
    {
      if p > |code| {
        assert full[p - 1] == 'X';
        RulesInvariant(full[0], full[1], p);
      } else {
        assert KeptAt(code, p);
      }
    }
    CompletedIsValid(full);
  }

  // ---------------------------------------------------------------------
  // The prompts.  Each takes the raw line typed at it; the line is
  // upper-cased first.  A refused line makes the prompt ask again.
  // ---------------------------------------------------------------------

  /** Step 1 (line 602): the answer must be a key of CATEGORIES. */
  function CategoryAnswer(line: string): (r: Option<char>)
    ensures r.Some? <==> |line| == 1 && Upper(line[0]) in CATEGORY_CODES
    ensures r.Some? ==> r.value == Upper(line[0]) && IsUpper(r.value)
  {
    var answer := UpperString(line);
    if |answer| == 1 && answer[0] in CATEGORY_CODES then
      CategoriesInvariant();
      assert answer[0] == CATEGORY_CODES[0] || answer[0] in CATEGORY_CODES[1..];
      Some(answer[0])
    else
      None
  }

  /** Step 2 (line 618): the answer must be one of the category's groups. */
  function GroupAnswer(category: char, line: string): (r: Option<char>)
    requires category in CATEGORY_CODES
    ensures r.Some? <==> |line| == 1 && IsLegalPair(category, Upper(line[0]))
    ensures r.Some? ==> r.value == Upper(line[0])
  {
    var answer := UpperString(line);
    if |answer| == 1 && answer[0] in GroupCodes(category) then Some(answer[0]) else None
  }

  /** Steps 3-6 as written (lines 642 and 660-674): the text appended for
      an answer at `position`.  With a table, the answer must be one of its
      letters or "X".  Without one, an empty answer stands for "X" and any
      alphabetic answer is taken as it is, however long. */
  function AttributeAnswer(category: char, group: char, position: int, line: string): (r: Option<string>)
    ensures r.Some? ==> IsAlphaString(r.value)
    ensures AttributeCodes(category, group, position).Some? && r.Some? ==>
      |r.value| == 1 && AttributeKept(category, group, position, r.value[0])
    ensures AttributeCodes(category, group, position).Some? ==>
      (r.Some? <==> (|line| == 1 && Upper(line[0]) in AttributeCodes(category, group, position).value)
                    || UpperString(line) == "X")
    ensures AttributeCodes(category, group, position).Some? && r.Some? ==> r.value == UpperString(line)
    ensures AttributeCodes(category, group, position).None? ==>
      (r.Some? <==> line == "" || IsAlphaString(UpperString(line)))
    ensures AttributeCodes(category, group, position).None? && line == "" ==> r == Some("X")
    ensures AttributeCodes(category, group, position).None? && IsAlphaString(UpperString(line)) ==>
      r == Some(UpperString(line))
  {
    RulesInvariant(category, group, position);
    var answer := UpperString(line);
    match AttributeCodes(category, group, position)
    case Some(codes) =>
      if (|answer| == 1 && answer[0] in codes) || answer == "X" then Some(answer) else None
    case None =>
      if answer == "" then Some("X")
      else if IsAlphaString(answer) then Some(answer)
      else None
  }

  /** A two-letter answer at a position without a table is taken whole:
      for the pair HF, which has no attribute rules, answering "ab" at
      position 3 and "X" after it yields seven characters, which the final
      re-validation refuses. */
  lemma MultiLetterAnswerBreaksCode()
    ensures AttributeAnswer('H', 'F', 3, "ab") == Some("AB")
    ensures Validator.Validate("HF" + "AB" + "XXX") == (false, Validator.WrongLength)
  {
    RulesInvariant('H', 'F', 3);
    assert UpperString("ab") == "AB";
    assert IsAlphaString("AB");
  }

  /** Steps 3-6 as the prompt text intends ("enter an alphabetic
      character"): at a position without a table the answer is one letter,
      or empty for "X". */
  function FixedAttributeAnswer(category: char, group: char, position: int, line: string): (r: Option<char>)
    ensures r.Some? ==> AttributeKept(category, group, position, r.value)
  {
    var answer := UpperString(line);
    match AttributeCodes(category, group, position)
    case Some(codes) =>
      if (|answer| == 1 && answer[0] in codes) || answer == "X" then Some(answer[0]) else None
    case None =>
      if answer == "" then Some('X')
      else if |answer| == 1 && IsAlpha(answer[0]) then Some(answer[0])
      else None
  }

  /** The general case of the same: at a position without a table, a
      line of two or more letters is appended whole, so whatever fills the
      positions after it, one letter each, the code is longer than six and
      the final re-validation refuses it with the length message. */
  lemma MultiLetterAnswerOverruns(code0: string, line: string, rest: string)
    requires 2 <= |code0| <= 5
    requires AttributeCodes(code0[0], code0[1], |code0| + 1).None?
    requires |line| >= 2 && IsAlphaString(UpperString(line))
    requires |rest| == 5 - |code0|
    ensures AttributeAnswer(code0[0], code0[1], |code0| + 1, line) == Some(UpperString(line))
    ensures Validator.Validate(code0 + UpperString(line) + rest) == (false, Validator.WrongLength)
  {
    var code := code0 + UpperString(line) + rest;
    assert |code| == |line| + 5 && |code| > 6;
  }

  /** The corrected prompt refuses only what the written one refuses, and
      on a one-letter line both append the same letter. */
  lemma FixedAnswerAgrees(category: char, group: char, position: int, line: string)
    ensures FixedAttributeAnswer(category, group, position, line).Some? ==>
      AttributeAnswer(category, group, position, line) == Some([FixedAttributeAnswer(category, group, position, line).value])
    ensures AttributeAnswer(category, group, position, line).Some? && |line| <= 1 ==>
      FixedAttributeAnswer(category, group, position, line).Some?
  {
    var answer := UpperString(line);
    if |answer| == 1 {
      assert answer == [answer[0]];
      assert IsAlphaString(answer) <==> IsAlpha(answer[0]);
    }
  }

  /** Lines 627-684 with the corrected prompt: the positions after the kept
      code are filled from the answers, one per position, and the result is
      re-validated; a code that fails is reported as None.  The kept code is
      upper-case, as both the prefix and the answers are upper-cased.  The
      source re-validates with the detailed `validate`; by the first
      postcondition of `Detailed.Validate` its result equals that of
      `Validator.Validate`, used here. */
  method Finish(code0: string, answers: seq<string>) returns (result: Option<string>)
    requires 2 <= |code0| <= 6 && IsLegalPair(code0[0], code0[1])
    requires UpperString(code0) == code0
    requires |answers| == 6 - |code0|
    requires forall i :: 0 <= i < |answers| ==>
      FixedAttributeAnswer(code0[0], code0[1], |code0| + 1 + i, answers[i]).Some?
    ensures result.Some? ==> Validator.Validate(result.value).0
    ensures result.Some? ==> |result.value| == 6 && result.value[..|code0|] == code0
    ensures result.Some? ==> forall i :: 0 <= i < |answers| ==>
      result.value[|code0| + i] == FixedAttributeAnswer(code0[0], code0[1], |code0| + 1 + i, answers[i]).value
    ensures result.Some? <==> KeptAttributes(code0)
  {
    var code := FillAttributes(code0, answers);
    if KeptAttributes(code0) {
      forall p | 3 <= p <= 6
        ensures KeptAt(code, p)
      {
        if p <= |code0| {
          assert KeptAt(code0, p);
        }
      }
      CompletedIsValid(code);
    } else {
      var p :| 3 <= p <= |code0| && !KeptAt(code0, p);
      assert Upper(code0[p - 1]) == code0[p - 1];
      RefusedAttribute(code, p);
    }
    var ok := Validator.Validate(code).0;
    if ok {
      result := Some(code);
    } else {
      result := None;
    }
  }

  /** The loop of lines 630-674: one answer per remaining position, each
      appended. */
  method FillAttributes(code0: string, answers: seq<string>) returns (code: string)
    requires 2 <= |code0| <= 6
    requires |answers| == 6 - |code0|
    requires forall i :: 0 <= i < |answers| ==>
      FixedAttributeAnswer(code0[0], code0[1], |code0| + 1 + i, answers[i]).Some?
    ensures |code| == 6 && code[..|code0|] == code0
    ensures forall p :: |code0| < p <= 6 ==> KeptAt(code, p)
    ensures forall i :: 0 <= i < |answers| ==>
      code[|code0| + i] == FixedAttributeAnswer(code0[0], code0[1], |code0| + 1 + i, answers[i]).value
  {
    code := code0;
    var category, group := code0[0], code0[1];
    for position := |code0| + 1 to 7
      invariant |code| == position - 1 && code[..|code0|] == code0
      invariant code[0] == category && code[1] == group
      invariant forall p :: |code0| < p < position ==> KeptAt(code, p)
      invariant forall i :: 0 <= i < position - |code0| - 1 ==>
        code[|code0| + i] == FixedAttributeAnswer(category, group, |code0| + 1 + i, answers[i]).value
    {
      var attr := FixedAttributeAnswer(category, group, position, answers[position - |code0| - 1]);
      ghost var before := code;
      code := code + [attr.value];
      forall p | |code0| < p <= position
        ensures KeptAt(code, p)
      {
        if p < position {
          assert KeptAt(before, p) && code[p - 1] == before[p - 1];
        }
      }
    }
  }

  /** A code whose pair is legal and which holds an upper-case character
      `AttributeKept` refuses is not valid. */
  lemma RefusedAttribute(code: string, p: int)
    requires |code| == 6 && 3 <= p <= 6 && IsLegalPair(code[0], code[1])
    requires Upper(code[p - 1]) == code[p - 1] && !KeptAt(code, p)
    ensures !Validator.Validate(code).0
  {
    Validator.ValidIff(code);
    if Validator.IsCfiCode(code) {
      LegalPairIsUpper(code[0], code[1]);
      RulesInvariant(code[0], code[1], p);
    }
  }
}
