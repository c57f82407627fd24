/** `CFIValidator.validate` of the detailed validator: the same decision
    path as the compact one, and on the way it fills a six-entry record of
    what each position holds, means and whether it is valid.  Python
    updates one dict in place; here each step replaces a map value. */
module Detailed {
  import opened Wrappers
  import opened Ascii
  import opened Taxonomy
  import opened Validator

  /** The meaning given to a letter at a position no table defines. */
  const CUSTOM_ATTRIBUTE: string := "Custom attribute (no predefined meaning)"

  /** `POSITION_DESCRIPTIONS[position]` */
  function PositionDescription(position: int): string
  {
    match position
    case 1 => "Category - Primary classification of the financial instrument"
    case 2 => "Group - Secondary classification within the category"
    case 3 => "Attribute 1 - Specific characteristics related to the instrument type"
    case 4 => "Attribute 2 - Additional characteristics/features"
    case 5 => "Attribute 3 - Further specification of the instrument"
    case _ => "Attribute 4 - Final specification details"
  }

  /** A text the records hold, named by where it comes from: a position's
      description, an entry of one of the tables, or one of the two fixed
      meanings.  `Render` gives the text itself. */
  datatype Text =
    | PositionText(position: int)
    | CategoryText(category: char)
    | GroupText(category: char, group: char)
    | AttributeText(category: char, group: char, position: int, code: char)
    | NotApplicableText
    | CustomText

  function Render(t: Text): string
  {
    match t
    case PositionText(p) => PositionDescription(p)
    case CategoryText(c) => CategoryName(c)
    case GroupText(c, g) => GroupName(c, g)
    case AttributeText(c, g, p, a) => AttributeName(c, g, p, a)
    case NotApplicableText => NOT_APPLICABLE
    case CustomText => CUSTOM_ATTRIBUTE
  }

  /** One entry of `positions_info`.  None is Python's None; `error` is
      None while the dict has no 'error' key. */
  datatype PositionInfo = PositionInfo(
    description: Text,
    value: Option<char>,
    meaning: Option<Text>,
    valid: Option<bool>,
    error: Option<Message>)

  /** The entry as first built: a description and nothing else. */
  function BlankRecord(position: int): PositionInfo
  {
    PositionInfo(PositionText(position), None, None, None, None)
  }

  /** The meaning recorded for the letter at `position` of an upper-cased
      code that passed every check before it: the table's description, or
      for a position no table defines, "Not applicable/Not specified" for
      an 'X' of a pair without rules and "Custom attribute" otherwise. */
  function Meaning(u: string, position: int): Text
    requires |u| == 6 && 1 <= position <= 6
  {
    var category, group, c := u[0], u[1], u[position - 1];
    if position == 1 then CategoryText(category)
    else if position == 2 then GroupText(category, group)
    else if HasRules(category, group) then
      match AttributeCodes(category, group, position)
      case Some(_) => AttributeText(category, group, position, c)
      case None => CustomText
    else if c == 'X' then NotApplicableText
    else CustomText
  }

  /** The record of a position that passed. */
  function PassedRecord(u: string, position: int): PositionInfo
    requires |u| == 6 && 1 <= position <= 6
  {
    BlankRecord(position).(value := Some(u[position - 1]), meaning := Some(Meaning(u, position)), valid := Some(true))
  }

  /** The record of the position that failed with message `m`. */
  function FailedRecord(u: string, position: int, m: Message): PositionInfo
    requires |u| == 6 && 1 <= position <= 6
  {
    BlankRecord(position).(value := Some(u[position - 1]), valid := Some(false), error := Some(m))
  }

  /** The position a message stops at: 0 for the shape checks, which touch
      no record, the failing position for a lookup failure, and 7 when the
      code is valid. */
  function StopPosition(m: Message): int
  {
    match m
    case InvalidCategory(_, _) => 1
    case InvalidGroup(_, _, _) => 2
    case InvalidAttribute(_, p, _, _) => p
    case NotAlphabeticAt(p) => p
    case ValidFor(_, _) => 7
    case _ => 0
  }

  /** The six records after stopping at `stop`: positions before it passed,
      the one at it failed with `m`, and the ones after it untouched. */
  predicate RecordsUpTo(info: map<int, PositionInfo>, u: string, stop: int, m: Message)
    requires |u| == 6
  {
    && info.Keys == {1, 2, 3, 4, 5, 6}
    && forall p :: 1 <= p <= 6 ==>
         info[p] == (if p < stop then PassedRecord(u, p)
                     else if p == stop then FailedRecord(u, p, m)
                     else BlankRecord(p))
  }

  /** Records 1..done passed and the rest are untouched: the state of the
      records while the checks are running. */
  predicate PassedUpTo(info: map<int, PositionInfo>, u: string, done: int)
    requires |u| == 6
  {
    && info.Keys == {1, 2, 3, 4, 5, 6}
    && forall p :: 1 <= p <= 6 ==>
         info[p] == (if p <= done then PassedRecord(u, p) else BlankRecord(p))
  }

  /** `CFIValidator.validate(cfi_code)` of the detailed validator: returns
      `(is_valid, message, positions_info)`. */
  method Validate(code: string) returns (ok: bool, message: Message, info: map<int, PositionInfo>)
    ensures (ok, message) == Validator.Validate(code)
    ensures info.Keys == {1, 2, 3, 4, 5, 6}
    ensures IsShapeFailure(message) ==> forall p :: 1 <= p <= 6 ==> info[p] == BlankRecord(p)
    ensures !IsShapeFailure(message) ==>
      |code| == 6 && RecordsUpTo(info, UpperString(code), StopPosition(message), message)
  {
    info := BlankRecords();
    if |code| == 0 {
      return false, NotAString, info;
    }
    if |code| != 6 {
      return false, WrongLength, info;
    }
    if !IsAlphaString(code) {
      return false, NotAlphabetic, info;
    }
    ok, message, info := ValidateLetters(code, info);
  }

  /** The part of `validate` after the shape checks: the upper-cased code's
      category, group and attributes, each recorded as it is checked. */
  method ValidateLetters(code: string, info0: map<int, PositionInfo>)
    returns (ok: bool, message: Message, info: map<int, PositionInfo>)
    requires |code| == 6 && IsAlphaString(code)
    requires PassedUpTo(info0, UpperString(code), 0)
    ensures (ok, message) == Validator.Validate(code)
    ensures !IsShapeFailure(message)
    ensures RecordsUpTo(info, UpperString(code), StopPosition(message), message)
  {
    info := info0;
    var u := UpperString(code);

    var category, group := u[0], u[1];
    var failure: Option<Message>;
    failure, info := CheckClass(u, info);
    if failure.Some? {
      return false, failure.value, info;
    }

    // Positions 3 to 6: the attributes.
    if HasRules(category, group) {
      failure, info := CheckRuledAttributes(u, info);
    } else {
      failure, info := CheckUnruledAttributes(u, info);
    }
    if failure.Some? {
      return false, failure.value, info;
    }
    AllPassed(info, u, ValidFor(category, group));
    return true, ValidFor(category, group), info;
  }

  /** Positions 1 and 2: the category, then the group within it. */
  method CheckClass(u: string, info0: map<int, PositionInfo>)
    returns (failure: Option<Message>, info: map<int, PositionInfo>)
    requires |u| == 6 && PassedUpTo(info0, u, 0)
    ensures failure.None? <==> IsLegalPair(u[0], u[1])
    ensures failure.Some? && u[0] !in CATEGORY_CODES ==>
      failure.value == InvalidCategory(u[0], CATEGORY_CODES)
    ensures failure.Some? && u[0] in CATEGORY_CODES ==>
      failure.value == InvalidGroup(u[1], u[0], GroupCodes(u[0]))
    ensures failure.Some? ==> RecordsUpTo(info, u, StopPosition(failure.value), failure.value)
    ensures failure.None? ==> PassedUpTo(info, u, 2)
  {
    info := info0;

    // Position 1: the category.
    var category := u[0];
    if category in CATEGORY_CODES {
      info := RecordPassed(info, u, 1, CategoryText(category));
    } else {
      var message := InvalidCategory(category, CATEGORY_CODES);
      info := RecordFailed(info, u, 1, message);
      return Some(message), info;
    }

    // Position 2: the group, within the category.
    var group := u[1];
    if group in GroupCodes(category) {
      info := RecordPassed(info, u, 2, GroupText(category, group));
    } else {
      var message := InvalidGroup(group, category, GroupCodes(category));
      info := RecordFailed(info, u, 2, message);
      return Some(message), info;
    }
    return None, info;
  }

  /** The six records as first built. */
  method BlankRecords() returns (info: map<int, PositionInfo>)
    ensures info.Keys == {1, 2, 3, 4, 5, 6}
    ensures forall p :: 1 <= p <= 6 ==> info[p] == BlankRecord(p)
  {
    info := map[];
    var i := 1;
    while i < 7
      invariant 1 <= i <= 7
      invariant forall p :: p in info <==> 1 <= p < i
      invariant forall p :: 1 <= p < i ==> info[p] == BlankRecord(p)
    {
      info := info[i := BlankRecord(i)];
      i := i + 1;
    }
    assert forall p :: p in info <==> p in {1, 2, 3, 4, 5, 6};
  }

  /** The attribute loop for a pair with rules: each position's letter must
      be listed in the position's table, or, at a position without a
      table, be a letter. */
  method CheckRuledAttributes(u: string, info0: map<int, PositionInfo>)
    returns (failure: Option<Message>, info: map<int, PositionInfo>)
    requires |u| == 6 && HasRules(u[0], u[1]) && PassedUpTo(info0, u, 2)
    ensures failure == CheckAttributes(u, 3)
    ensures failure.None? ==> PassedUpTo(info, u, 6)
    ensures failure.Some? ==> RecordsUpTo(info, u, StopPosition(failure.value), failure.value)
  {
    info := info0;
    var category, group := u[0], u[1];
    var position := 2;
    while position < 6
      invariant 2 <= position <= 6
      invariant PassedUpTo(info, u, position)
      invariant forall q :: 3 <= q <= position ==> AcceptsAt(u, q)
    {
      var c := u[position];
      var index := position + 1;
      match AttributeCodes(category, group, index) {
        case Some(codes) =>
          if c in codes {
            info := RecordPassed(info, u, index, AttributeText(category, group, index, c));
          } else {
            var message := InvalidAttribute(c, index, [category, group], codes);
            info := RecordFailed(info, u, index, message);
            FirstRejection(u, index);
            return Some(message), info;
          }
        case None =>
          if IsAlpha(c) {
            info := RecordPassed(info, u, index, CustomText);
          } else {
            var message := NotAlphabeticAt(index);
            info := RecordFailed(info, u, index, message);
            FirstRejection(u, index);
            return Some(message), info;
          }
      }
      position := position + 1;
    }
    return None, info;
  }

  /** The attribute loop for a pair without rules: every position must hold
      a letter; an 'X' means "not applicable", any other letter a custom
      attribute. */
  method CheckUnruledAttributes(u: string, info0: map<int, PositionInfo>)
    returns (failure: Option<Message>, info: map<int, PositionInfo>)
    requires |u| == 6 && !HasRules(u[0], u[1]) && PassedUpTo(info0, u, 2)
    ensures failure == CheckAttributes(u, 3)
    ensures failure.None? ==> PassedUpTo(info, u, 6)
    ensures failure.Some? ==> RecordsUpTo(info, u, StopPosition(failure.value), failure.value)
  {
    info := info0;
    var position := 2;
    while position < 6
      invariant 2 <= position <= 6
      invariant PassedUpTo(info, u, position)
      invariant forall q :: 3 <= q <= position ==> AcceptsAt(u, q)
    {
      var index := position + 1;
      var c := u[position];
      if IsAlpha(c) {
        if c == 'X' {
          info := RecordPassed(info, u, index, NotApplicableText);
        } else {
          info := RecordPassed(info, u, index, CustomText);
        }
      } else {
        var message := NotAlphabeticAt(index);
        info := RecordFailed(info, u, index, message);
        FirstRejection(u, index);
        return Some(message), info;
      }
      position := position + 1;
    }
    return None, info;
  }

  /** Position `index` passes: its record gets the letter, its meaning and
      `valid=True`. */
  method RecordPassed(info0: map<int, PositionInfo>, u: string, index: int, meaning: Text)
    returns (info: map<int, PositionInfo>)
    requires |u| == 6 && 1 <= index <= 6 && PassedUpTo(info0, u, index - 1)
    requires meaning == Meaning(u, index)
    ensures PassedUpTo(info, u, index)
  {
    info := info0[index := info0[index].(value := Some(u[index - 1]))];
    info := info[index := info[index].(meaning := Some(meaning), valid := Some(true))];
  }

  /** Position `index` fails with `message`: its record gets the letter,
      `valid=False` and the error, and the records after it stay blank. */
  method RecordFailed(info0: map<int, PositionInfo>, u: string, index: int, message: Message)
    returns (info: map<int, PositionInfo>)
    requires |u| == 6 && 1 <= index <= 6 && PassedUpTo(info0, u, index - 1)
    requires StopPosition(message) == index
    ensures RecordsUpTo(info, u, StopPosition(message), message)
  {
    info := info0[index := info0[index].(value := Some(u[index - 1]))];
    info := info[index := info[index].(valid := Some(false), error := Some(message))];
  }

  /** What the records say, read position by position: every position
      before the stopping one passed with its upper-cased letter, the
      stopping one failed with the returned message as its error, and the
      ones after it were never filled in. */
  lemma RecordsRead(info: map<int, PositionInfo>, u: string, m: Message)
    requires |u| == 6 && RecordsUpTo(info, u, StopPosition(m), m)
    ensures forall p :: 1 <= p <= 6 && p < StopPosition(m) ==>
      info[p].valid == Some(true) && info[p].value == Some(u[p - 1]) && info[p].meaning.Some?
    ensures 1 <= StopPosition(m) <= 6 ==>
      info[StopPosition(m)].valid == Some(false) && info[StopPosition(m)].error == Some(m)
    ensures forall p :: 1 <= p <= 6 && StopPosition(m) < p ==>
      info[p].value == None && info[p].valid == None && info[p].meaning == None
  {
  }

  /** Where a passed position's meaning comes from: the category's and the
      group's names; for a pair with rules, the table's description of the
      letter; for a pair without rules, "Not applicable/Not specified" for
      'X' and "Custom attribute (no predefined meaning)" for any other
      letter. */
  lemma MeaningSources(u: string, p: int)
    requires |u| == 6 && 3 <= p <= 6 && IsLegalPair(u[0], u[1]) && AcceptsAt(u, p)
    ensures Render(Meaning(u, 1)) == CategoryName(u[0])
    ensures Render(Meaning(u, 2)) == GroupName(u[0], u[1])
    ensures HasRules(u[0], u[1]) ==>
      && AttributeCodes(u[0], u[1], p).Some?
      && u[p - 1] in AttributeCodes(u[0], u[1], p).value
      && Render(Meaning(u, p)) == AttributeName(u[0], u[1], p, u[p - 1])
    ensures !HasRules(u[0], u[1]) ==>
      Render(Meaning(u, p)) == (if u[p - 1] == 'X' then NOT_APPLICABLE else CUSTOM_ATTRIBUTE)
  {
    RulesInvariant(u[0], u[1], p);
  }

  /** Once all six positions passed, the records are those of a code that
      stops past position 6. */
  lemma AllPassed(info: map<int, PositionInfo>, u: string, m: Message)
    requires |u| == 6 && PassedUpTo(info, u, 6) && StopPosition(m) == 7
    ensures RecordsUpTo(info, u, StopPosition(m), m)
  {
  }

  /** When positions 3..k-1 are accepted and k is not, the attribute loop
      of the compact validator stops at k with the same message. */
  lemma FirstRejection(u: string, k: int)
    requires |u| == 6 && 3 <= k <= 6
    requires forall q :: 3 <= q < k ==> AcceptsAt(u, q)
    requires !AcceptsAt(u, k)
    ensures CheckAttributes(u, 3) == Some(Rejection(u[0], u[1], k, u[k - 1]))
  {
    CheckAttributesFrom(u, 3, k);
  }

  lemma {:induction false} CheckAttributesFrom(u: string, p: int, k: int)
    requires |u| == 6 && 3 <= p <= k <= 6
    requires forall q :: p <= q < k ==> AcceptsAt(u, q)
    requires !AcceptsAt(u, k)
    ensures CheckAttributes(u, p) == Some(Rejection(u[0], u[1], k, u[k - 1]))
    decreases k - p
  {
    if p < k {
      CheckAttributesFrom(u, p + 1, k);
    }
  }
}
