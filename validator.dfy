/** `CFIValidator.validate` of the compact validator: a chain of guard
    clauses (non-empty, six characters, alphabetic), upper-casing, then the
    category, the group, and positions 3 to 6 left to right, stopping at
    the first position that is not legal. */
module Validator {
  import opened Wrappers
  import opened Ascii
  import opened Taxonomy

  /** The message half of the `(bool, message)` result.  Each failure names
      the offending character and lists the legal choices in table order. */
  datatype Message =
    | NotAString                        // "CFI code must be a string"
    | WrongLength                       // "CFI code must be exactly 6 characters"
    | NotAlphabetic                     // "CFI code must contain only alphabetic characters"
    | InvalidCategory(category: char, choices: string)
    | InvalidGroup(group: char, category: char, choices: string)
    | InvalidAttribute(attribute: char, position: int, categoryGroup: string, choices: string)
    | NotAlphabeticAt(position: int)    // "Character at position N must be alphabetic"
    | ValidFor(category: char, group: char)   // "Valid CFI code for <category name> - <group name>"

  /** The three shape checks that come before any table lookup. */
  predicate IsShapeFailure(m: Message)
  {
    m.NotAString? || m.WrongLength? || m.NotAlphabetic?
  }

  /** Is `c` legal at attribute position `p` of a code whose category and
      group are given?  A pair with rules checks the position's table; a
      position without a table, and a pair without rules, accept any
      letter. */
  predicate Accepts(category: char, group: char, p: int, c: char): (b: bool)
    ensures b ==> IsAlpha(c)
    ensures AttributeCodes(category, group, p).None? ==> (b <==> IsAlpha(c))
  {
    RulesInvariant(category, group, p);
    if HasRules(category, group) then
      match AttributeCodes(category, group, p)
      case Some(codes) => c in codes
      case None => IsAlpha(c)
    else
      IsAlpha(c)
  }

  /** `Accepts` applied to the character of `code` at position `p`. */
  predicate AcceptsAt(code: string, p: int)
    requires 2 <= |code| && 1 <= p <= |code|
  {
    Accepts(code[0], code[1], p, code[p - 1])
  }

  /** The message for an attribute `c` that `Accepts` refuses at `p`. */
  function Rejection(category: char, group: char, p: int, c: char): (m: Message)
    ensures m.InvalidAttribute? || m.NotAlphabeticAt?
    ensures m.InvalidAttribute? ==> m.position == p && m.attribute == c
    ensures m.NotAlphabeticAt? ==> m.position == p
  {
    if HasRules(category, group) then
      match AttributeCodes(category, group, p)
      case Some(codes) => InvalidAttribute(c, p, [category, group], codes)
      case None => NotAlphabeticAt(p)
    else
      NotAlphabeticAt(p)
  }

  /** The loop over positions p..6 of an upper-cased code: the message for
      the first position whose character is refused, or None when all are
      legal. */
  function CheckAttributes(code: string, p: int): (r: Option<Message>)
    requires |code| == 6 && 3 <= p <= 7
    ensures r.None? <==> forall q :: p <= q <= 6 ==> AcceptsAt(code, q)
    ensures r.Some? ==>
      exists k :: p <= k <= 6
        && (forall q :: p <= q < k ==> AcceptsAt(code, q))
        && !AcceptsAt(code, k)
        && r.value == Rejection(code[0], code[1], k, code[k - 1])
    decreases 7 - p
  {
    if p == 7 then None
    else if !AcceptsAt(code, p) then Some(Rejection(code[0], code[1], p, code[p - 1]))
    else CheckAttributes(code, p + 1)
  }

  /** Declarative reading of a legal code, independent of the order of the
      checks: six letters whose upper-cased form has a legal category+group
      pair and, at each position 3 to 6 that has a table, a letter the
      table lists. */
  predicate IsCfiCode(code: string)
  {
    && |code| == 6
    && IsAlphaString(code)
    && var u := UpperString(code);
    && IsLegalPair(u[0], u[1])
    && forall p :: 3 <= p <= 6 && AttributeCodes(u[0], u[1], p).Some? ==>
         u[p - 1] in AttributeCodes(u[0], u[1], p).value
  }

  /** `CFIValidator.validate(cfi_code)`: returns `(is_valid, message)`. */
  function Validate(code: string): (r: (bool, Message))
    ensures r.0 <==> r.1.ValidFor?
  {
    if |code| == 0 then (false, NotAString)
    else if |code| != 6 then (false, WrongLength)
    else if !IsAlphaString(code) then (false, NotAlphabetic)
    else
      var u := UpperString(code);
      var category := u[0];
      if category !in CATEGORY_CODES then
        (false, InvalidCategory(category, CATEGORY_CODES))
      else
        var group := u[1];
        if group !in GroupCodes(category) then
          (false, InvalidGroup(group, category, GroupCodes(category)))
        else
          match CheckAttributes(u, 3)
          case Some(m) => (false, m)
          case None => (true, ValidFor(category, group))
  }

  // ---------------------------------------------------------------------
  // What validate promises.
  // ---------------------------------------------------------------------

  /** On a letter, the position check is exactly "listed in the position's
      table, when there is one": the isalpha fallback never refuses. */
  lemma AcceptsLetter(category: char, group: char, p: int, c: char)
    requires IsAlpha(c)
    ensures Accepts(category, group, p, c) <==>
      (AttributeCodes(category, group, p).Some? ==> c in AttributeCodes(category, group, p).value)
  {
    RulesInvariant(category, group, p);
  }

  /** A refused letter is refused by a table: the message is always
      InvalidAttribute, naming the pair and the table's letters. */
  lemma RejectionOfLetter(category: char, group: char, p: int, c: char)
    requires IsAlpha(c) && !Accepts(category, group, p, c)
    ensures AttributeCodes(category, group, p).Some?
    ensures Rejection(category, group, p, c) ==
      InvalidAttribute(c, p, [category, group], AttributeCodes(category, group, p).value)
  {
    AcceptsLetter(category, group, p, c);
    RulesInvariant(category, group, p);
  }

  /** validate accepts exactly the codes of the declarative reading, and
      then names the category and the group. */
  lemma ValidIff(code: string)
    ensures Validate(code).0 <==> IsCfiCode(code)
    ensures Validate(code).0 ==>
      var u := UpperString(code);
      Validate(code).1 == ValidFor(u[0], u[1])
  {
    if |code| == 6 && IsAlphaString(code) {
      var u := UpperString(code);
      CaseKeepsAlphabetic(code);
      forall p | 3 <= p <= 6
        ensures AcceptsAt(u, p) <==>
          (AttributeCodes(u[0], u[1], p).Some? ==> u[p - 1] in AttributeCodes(u[0], u[1], p).value)
      {
        AcceptsLetter(u[0], u[1], p, u[p - 1]);
      }
    }
  }

  /** The three shape checks, in their order: each fails exactly when the
      ones before it pass and its own condition does not hold. */
  lemma ShapeFailures(code: string)
    ensures Validate(code) == (false, NotAString) <==> |code| == 0
    ensures Validate(code) == (false, WrongLength) <==> |code| != 0 && |code| != 6
    ensures Validate(code) == (false, NotAlphabetic) <==> |code| == 6 && !IsAlphaString(code)
    ensures IsShapeFailure(Validate(code).1) ==> !Validate(code).0
  {
  }

  /** The category is checked after the shape, on the upper-cased code, and
      a refusal lists CATEGORIES in order. */
  lemma CategoryFailure(code: string)
    ensures Validate(code).1.InvalidCategory? <==>
      |code| == 6 && IsAlphaString(code) && UpperString(code)[0] !in CATEGORY_CODES
    ensures Validate(code).1.InvalidCategory? ==>
      Validate(code).1 == InvalidCategory(UpperString(code)[0], CATEGORY_CODES)
  {
  }

  /** The group is checked against the category's own groups, and a refusal
      lists them in order. */
  lemma GroupFailure(code: string)
    ensures Validate(code).1.InvalidGroup? <==>
      && |code| == 6 && IsAlphaString(code)
      && var u := UpperString(code);
      && u[0] in CATEGORY_CODES && u[1] !in GroupCodes(u[0])
    ensures Validate(code).1.InvalidGroup? ==>
      var u := UpperString(code);
      Validate(code).1 == InvalidGroup(u[1], u[0], GroupCodes(u[0]))
  {
  }

  /** "Character at position N must be alphabetic" is never returned: with
      ASCII case mapping the upper-cased code is still alphabetic by then,
      and every position that the pair's rules leave open accepts any
      letter. */
  lemma NeverNotAlphabeticAt(code: string)
    ensures !Validate(code).1.NotAlphabeticAt?
  {
    if |code| == 6 && IsAlphaString(code) {
      var u := UpperString(code);
      CaseKeepsAlphabetic(code);
      if u[0] in CATEGORY_CODES && u[1] in GroupCodes(u[0]) && CheckAttributes(u, 3).Some? {
        var k :| 3 <= k <= 6
          && (forall q :: 3 <= q < k ==> AcceptsAt(u, q))
          && !AcceptsAt(u, k)
          && CheckAttributes(u, 3).value == Rejection(u[0], u[1], k, u[k - 1]);
        RejectionOfLetter(u[0], u[1], k, u[k - 1]);
      }
    }
  }

  /** On an alphabetic code, `AcceptsAt` at every attribute position is
      the table membership of the declarative reading. */
  lemma AcceptsLetters(u: string)
    requires |u| == 6 && IsAlphaString(u)
    ensures forall p :: 3 <= p <= 6 ==>
      (AcceptsAt(u, p) <==>
        (AttributeCodes(u[0], u[1], p).Some? ==> u[p - 1] in AttributeCodes(u[0], u[1], p).value))
  {
    forall p | 3 <= p <= 6
      ensures AcceptsAt(u, p) <==>
        (AttributeCodes(u[0], u[1], p).Some? ==> u[p - 1] in AttributeCodes(u[0], u[1], p).value)
    {
      AcceptsLetter(u[0], u[1], p, u[p - 1]);
    }
  }

  /** An attribute refusal happens exactly when the pair is legal and some
      position 3 to 6 holds a letter its table does not list. */
  lemma AttributeFailure(code: string)
    ensures Validate(code).1.InvalidAttribute? <==>
      && |code| == 6 && IsAlphaString(code)
      && var u := UpperString(code);
      && IsLegalPair(u[0], u[1])
      && exists p :: 3 <= p <= 6 && AttributeCodes(u[0], u[1], p).Some?
           && u[p - 1] !in AttributeCodes(u[0], u[1], p).value
  {
    ValidIff(code);
    NeverNotAlphabeticAt(code);
  }

  /** The loop's refusal of an alphabetic code blames the first position
      whose letter its table does not list. */
  lemma FirstRefusal(u: string)
    requires |u| == 6 && IsAlphaString(u) && CheckAttributes(u, 3).Some?
    ensures
      var m := CheckAttributes(u, 3).value;
      && m.InvalidAttribute?
      && 3 <= m.position <= 6
      && m.attribute == u[m.position - 1]
      && m.categoryGroup == u[..2]
      && AttributeCodes(u[0], u[1], m.position) == Some(m.choices)
      && m.attribute !in m.choices
      && forall q :: 3 <= q < m.position ==>
           (AttributeCodes(u[0], u[1], q).Some? ==> u[q - 1] in AttributeCodes(u[0], u[1], q).value)
  {
    AcceptsLetters(u);
    var k :| 3 <= k <= 6
      && (forall q :: 3 <= q < k ==> AcceptsAt(u, q))
      && !AcceptsAt(u, k)
      && CheckAttributes(u, 3).value == Rejection(u[0], u[1], k, u[k - 1]);
    RejectionOfLetter(u[0], u[1], k, u[k - 1]);
    assert CheckAttributes(u, 3).value ==
      InvalidAttribute(u[k - 1], k, [u[0], u[1]], AttributeCodes(u[0], u[1], k).value);
    assert u[..2] == [u[0], u[1]];
  }

  /** An attribute refusal blames the first position, from left to right,
      whose letter its table does not list, and lists that table's letters
      in order. */
  lemma AttributeFailureNamesFirst(code: string)
    requires Validate(code).1.InvalidAttribute?
    ensures |code| == 6 && IsAlphaString(code)
    ensures
      var u := UpperString(code);
      var m := Validate(code).1;
      && 3 <= m.position <= 6
      && m.attribute == u[m.position - 1]
      && m.categoryGroup == u[..2]
      && AttributeCodes(u[0], u[1], m.position) == Some(m.choices)
      && m.attribute !in m.choices
      && forall q :: 3 <= q < m.position ==>
           (AttributeCodes(u[0], u[1], q).Some? ==> u[q - 1] in AttributeCodes(u[0], u[1], q).value)
  {
    ReachesAttributes(code);
    FirstRefusal(UpperString(code));
  }

  /** An attribute refusal comes from the attribute loop, run on the
      upper-cased code of six letters. */
  lemma ReachesAttributes(code: string)
    requires Validate(code).1.InvalidAttribute?
    ensures |code| == 6 && IsAlphaString(code)
    ensures IsAlphaString(UpperString(code))
    ensures CheckAttributes(UpperString(code), 3).Some?
    ensures Validate(code).1 == CheckAttributes(UpperString(code), 3).value
  {
    CaseKeepsAlphabetic(code);
  }

  /** validate upper-cases before looking anything up, so the case of the
      input never matters. */
  lemma CaseInsensitive(code: string)
    ensures Validate(UpperString(code)) == Validate(code)
    ensures Validate(LowerString(code)) == Validate(code)
  {
    CaseKeepsAlphabetic(code);
    UpperStringIdempotent(code);
    UpperOfLower(code);
  }

  /** Every legal pair followed by four 'X' fillers is a valid code: 'X' is
      listed in every attribute table. */
  lemma FillerIsValid(category: char, group: char)
    requires IsLegalPair(category, group)
    ensures Validate([category, group, 'X', 'X', 'X', 'X']).0
  {
    var code := [category, group, 'X', 'X', 'X', 'X'];
    GroupsInvariant(category);
    assert group in GroupCodes(category);
    assert IsUpper(group) by {
      var i :| 0 <= i < |GroupCodes(category)| && GroupCodes(category)[i] == group;
    }
    assert UpperString(code) == code;
    forall p | 3 <= p <= 6 && AttributeCodes(category, group, p).Some?
      ensures code[p - 1] in AttributeCodes(category, group, p).value
    {
      RulesInvariant(category, group, p);
    }
    ValidIff(code);
  }

  /** Upper-casing leaves an upper-case string unchanged. */
  lemma UpperOfLetters(s: string)
    requires forall i :: 0 <= i < |s| ==> IsUpper(s[i])
    ensures UpperString(s) == s
  {
  }

  /** Worked examples: a valid code. */
  lemma ExampleValid()
    ensures Validate("ESVNFB") == (true, ValidFor('E', 'S'))
    ensures CategoryName('E') == "Equities" && GroupName('E', 'S') == "Shares"
  {
    UpperOfLetters("ESVNFB");
    assert IsAlphaString("ESVNFB");
    ExampleAttributes();
  }

  lemma ExampleAttributes()
    ensures CheckAttributes("ESVNFB", 3).None?
  {
  }

  /** Worked examples: one failure per check. */
  lemma ExampleShapeFailures()
    ensures Validate("") == (false, NotAString)
    ensures Validate("ESVNF") == (false, WrongLength)
    ensures Validate("ES1NFB") == (false, NotAlphabetic)
  {
  }

  lemma ExampleCategoryFailure()
    ensures Validate("ZSVNFB") == (false, InvalidCategory('Z', "EDROFSHMIJKLT"))
  {
  }

  lemma ExampleGroupFailure()
    ensures Validate("EZVNFB") == (false, InvalidGroup('Z', 'E', "SUFLHRPCX"))
  {
    UpperOfLetters("EZVNFB");
    assert IsAlphaString("EZVNFB");
  }

  lemma ExampleAttributeFailure()
    ensures Validate("ESANFB") == (false, InvalidAttribute('A', 3, "ES", "VNRX"))
  {
    UpperOfLetters("ESANFB");
    assert IsAlphaString("ESANFB");
    assert !AcceptsAt("ESANFB", 3);
  }
}
