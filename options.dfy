/** The two option lookups of the detailed validator: `get_position_options`
    (the dict of legal codes for one position, given what is already
    chosen) and `format_attribute_options` (the same table for an attribute
    position, rendered one "  K - description" line per entry). */
module Options {
  import opened Wrappers
  import opened Ascii
  import opened Taxonomy
  import opened Validator

  /** A dict's `items()`, in insertion order. */
  type Items = seq<(char, string)>

  /** The items of a dict whose keys are `codes`, in that order, and whose
      values are given by `describe`. */
  function ItemsOf(codes: string, describe: char -> string): (items: Items)
    ensures |items| == |codes|
    ensures forall i :: 0 <= i < |codes| ==> items[i] == (codes[i], describe(codes[i]))
  {
    seq(|codes|, i requires 0 <= i < |codes| => (codes[i], describe(codes[i])))
  }

  /** The keys of a dict, in insertion order. */
  function KeysOf(items: Items): (codes: string)
    ensures |codes| == |items|
    ensures forall i :: 0 <= i < |items| ==> codes[i] == items[i].0
  {
    seq(|items|, i requires 0 <= i < |items| => items[i].0)
  }

  /** `ATTRIBUTES.get(category_group, {}).get(position)`, keys only, for a
      key built by string concatenation: only a two-letter key can be one
      of the nine pairs. */
  function TableAt(categoryGroup: string, position: int): (r: Option<string>)
    ensures r.Some? ==> |categoryGroup| == 2 && HasRules(categoryGroup[0], categoryGroup[1])
    ensures |categoryGroup| == 2 ==> r == AttributeCodes(categoryGroup[0], categoryGroup[1], position)
  {
    if |categoryGroup| == 2 && HasRules(categoryGroup[0], categoryGroup[1]) then
      AttributeCodes(categoryGroup[0], categoryGroup[1], position)
    else
      None
  }

  /** The items of the attribute table `TableAt(categoryGroup, position)`. */
  function TableItems(categoryGroup: string, position: int, codes: string): Items
    requires TableAt(categoryGroup, position) == Some(codes)
  {
    ItemsOf(codes, code => AttributeName(categoryGroup[0], categoryGroup[1], position, code))
  }

  /** `get_position_options(category, group, position)`.  Python's None
      for a missing category or group is the empty string here: both are
      falsy and neither is a key of any table. */
  function GetPositionOptions(category: string, group: string, position: int): (r: Items)
    ensures r == [] <==>
      !(|| position == 1
        || (position == 2 && |category| == 1 && category[0] in CATEGORY_CODES)
        || (3 <= position <= 6 && category != "" && group != ""))
    ensures forall i :: 0 <= i < |r| ==> IsUpper(r[i].0)
  {
    if position == 1 then
      CategoriesInvariant();
      ItemsOf(CATEGORY_CODES, CategoryName)
    else if position == 2 && |category| == 1 && category[0] in CATEGORY_CODES then
      GroupsInvariant(category[0]);
      ItemsOf(GroupCodes(category[0]), code => GroupName(category[0], code))
    else if position in [3, 4, 5, 6] && category != "" && group != "" then
      match TableAt(category + group, position)
      case Some(codes) =>
        RulesInvariant((category + group)[0], (category + group)[1], position);
        TableItems(category + group, position, codes)
      case None => [('X', NOT_APPLICABLE)]
    else
      []
  }

  // ---------------------------------------------------------------------
  // Rendering: one line per option, joined by newlines.
  // ---------------------------------------------------------------------

  /** f"  {key} - {value}" */
  function OptionLine(key: char, description: string): string
  {
    "  " + [key] + " - " + description
  }

  /** Reads an option line back into its key and description. */
  function ParseOptionLine(line: string): Option<(char, string)>
  {
    if |line| >= 6 && line[..2] == "  " && line[3..6] == " - " then
      Some((line[2], line[6..]))
    else
      None
  }

  /** An option line reads back as the option it renders. */
  lemma ParseOptionLineInverse(key: char, description: string)
    ensures ParseOptionLine(OptionLine(key, description)) == Some((key, description))
  {
    var line := OptionLine(key, description);
    assert line[..2] == "  ";
    assert line[3..6] == " - ";
    assert line[6..] == description;
  }

  /** One option line per item, in order. */
  function OptionLines(items: Items): (lines: seq<string>)
    ensures |lines| == |items|
    ensures forall i :: 0 <= i < |items| ==> lines[i] == OptionLine(items[i].0, items[i].1)
  {
    seq(|items|, i requires 0 <= i < |items| => OptionLine(items[i].0, items[i].1))
  }

  /** "\n".join(lines) */
  function Join(lines: seq<string>): (s: string)
    ensures |lines| == 0 ==> s == ""
    ensures |lines| > 0 ==> |s| >= |lines[0]| && s[..|lines[0]|] == lines[0]
    ensures |lines| > 1 ==> |s| > |lines[0]| && s[|lines[0]|] == '\n'
  {
    if |lines| == 0 then ""
    else if |lines| == 1 then lines[0]
    else lines[0] + "\n" + Join(lines[1..])
  }

  /** The index of the first newline of `s`, or |s| when there is none. */
  function NewlineIndex(s: string): (i: nat)
    ensures i <= |s|
    ensures forall j :: 0 <= j < i ==> s[j] != '\n'
    ensures i < |s| ==> s[i] == '\n'
  {
    if |s| == 0 then 0
    else if s[0] == '\n' then 0
    else 1 + NewlineIndex(s[1..])
  }

  /** s.split("\n") */
  function SplitLines(s: string): (lines: seq<string>)
    ensures |lines| > 0
    decreases |s|
  {
    var i := NewlineIndex(s);
    if i == |s| then [s]
    else [s[..i]] + SplitLines(s[i + 1..])
  }

  predicate NoNewline(line: string)
  {
    forall j :: 0 <= j < |line| ==> line[j] != '\n'
  }

  /** Splitting on newlines undoes joining with newlines, for a non-empty
      list of lines none of which holds a newline. */
  lemma {:induction false} SplitJoin(lines: seq<string>)
    requires |lines| > 0
    requires forall k :: 0 <= k < |lines| ==> NoNewline(lines[k])
    ensures SplitLines(Join(lines)) == lines
    decreases |lines|
  {
    if |lines| == 1 {
      SplitOneLine(lines[0]);
    } else {
      SplitJoin(lines[1..]);
      SplitAfterLine(lines[0], Join(lines[1..]));
      assert lines == [lines[0]] + lines[1..];
    }
  }

  /** A newline-free string splits into itself alone. */
  lemma SplitOneLine(line: string)
    requires NoNewline(line)
    ensures SplitLines(line) == [line]
  {
    assert NewlineIndex(line) == |line|;
  }

  /** Splitting `line + "\n" + more`, for a newline-free `line`, gives
      `line` followed by the lines of `more`. */
  lemma SplitAfterLine(line: string, more: string)
    requires NoNewline(line)
    ensures SplitLines(line + "\n" + more) == [line] + SplitLines(more)
  {
    var s := line + "\n" + more;
    NewlineAfter(line, more);
    assert s[..|line|] == line;
    assert s[|line| + 1..] == more;
  }

  /** In `line + "\n" + more`, a newline-free `line` ends at the first
      newline. */
  lemma NewlineAfter(line: string, more: string)
    requires NoNewline(line)
    ensures NewlineIndex(line + "\n" + more) == |line|
  {
    var s := line + "\n" + more;
    assert s[|line|] == '\n';
    assert forall j :: 0 <= j < |line| ==> s[j] == line[j];
  }

  /** Reads a rendered option list back into its items. */
  function ParseOptions(s: string): Option<Items>
  {
    var lines := SplitLines(s);
    if forall k :: 0 <= k < |lines| ==> ParseOptionLine(lines[k]).Some? then
      Some(seq(|lines|, k requires 0 <= k < |lines| && ParseOptionLine(lines[k]).Some? =>
        ParseOptionLine(lines[k]).value))
    else
      None
  }

  /** `format_attribute_options(category, group, position)`. */
  function FormatAttributeOptions(category: string, group: string, position: int): (s: string)
    ensures |s| >= 6 && s[..2] == "  " && s[3..6] == " - "
    ensures s[2] == (match TableAt(category + group, position) case Some(codes) => codes[0] case None => 'X')
  {
    var categoryGroup := category + group;
    match TableAt(categoryGroup, position)
    case Some(codes) =>
      RulesInvariant(categoryGroup[0], categoryGroup[1], position);
      Join(OptionLines(TableItems(categoryGroup, position, codes)))
    case None => OptionLine('X', NOT_APPLICABLE)
  }

  // ---------------------------------------------------------------------
  // What the lookups promise.
  // ---------------------------------------------------------------------

  /** An option list whose descriptions hold no newline reads back as the
      items it renders. */
  lemma ParseOptionsInverse(items: Items)
    requires |items| > 0
    requires forall i :: 0 <= i < |items| ==> items[i].0 != '\n' && NoNewline(items[i].1)
    ensures ParseOptions(Join(OptionLines(items))) == Some(items)
  {
    var lines := OptionLines(items);
    forall k | 0 <= k < |lines|
      ensures NoNewline(lines[k])
      ensures ParseOptionLine(lines[k]) == Some(items[k])
    {
      ParseOptionLineInverse(items[k].0, items[k].1);
      var line := lines[k];
      forall j | 0 <= j < |line|
        ensures line[j] != '\n'
      {
        if j >= 6 {
          assert line[j] == items[k].1[j - 6];
        }
      }
    }
    SplitJoin(lines);
    var parsed := seq(|lines|, k requires 0 <= k < |lines| && ParseOptionLine(lines[k]).Some? =>
      ParseOptionLine(lines[k]).value);
    assert parsed == items;
  }

  /** For an attribute position with a category and a group given,
      `format_attribute_options` renders exactly what `get_position_options`
      returns: one line per entry, in table order, or the single 'X' line. */
  lemma FormatRendersOptions(category: string, group: string, position: int)
    requires 3 <= position <= 6 && category != "" && group != ""
    ensures FormatAttributeOptions(category, group, position) ==
      Join(OptionLines(GetPositionOptions(category, group, position)))
  {
    assert position in [3, 4, 5, 6];
    if TableAt(category + group, position).None? {
      assert OptionLines([('X', NOT_APPLICABLE)]) == [OptionLine('X', NOT_APPLICABLE)];
    }
  }

  /** Rendered options read back as the options, when no description holds
      a newline. */
  lemma FormatRoundTrip(category: string, group: string, position: int)
    requires 3 <= position <= 6 && category != "" && group != ""
    requires |GetPositionOptions(category, group, position)| > 0
    requires forall i :: 0 <= i < |GetPositionOptions(category, group, position)| ==>
      var item := GetPositionOptions(category, group, position)[i];
      item.0 != '\n' && NoNewline(item.1)
    ensures ParseOptions(FormatAttributeOptions(category, group, position)) ==
      Some(GetPositionOptions(category, group, position))
  {
    FormatRendersOptions(category, group, position);
    ParseOptionsInverse(GetPositionOptions(category, group, position));
  }

  /** Position 1 offers exactly the categories, position 2 exactly the
      known category's groups, and anything outside 1 to 6, or position 2
      without a known category, nothing. */
  lemma ClassOptions(category: string, group: string, position: int)
    ensures position == 1 ==> KeysOf(GetPositionOptions(category, group, position)) == CATEGORY_CODES
    ensures position == 2 && |category| == 1 && category[0] in CATEGORY_CODES ==>
      KeysOf(GetPositionOptions(category, group, position)) == GroupCodes(category[0])
    ensures position == 2 && !(|category| == 1 && category[0] in CATEGORY_CODES) ==>
      GetPositionOptions(category, group, position) == []
    ensures !(1 <= position <= 6) ==> GetPositionOptions(category, group, position) == []
  {
  }

  /** At an attribute position of a legal pair, the offered codes are
      letters the validator accepts there; for a pair with rules they are
      exactly those letters, and for a pair without rules only 'X' is
      offered. */
  lemma AttributeOptions(category: char, group: char, position: int)
    requires IsLegalPair(category, group) && 3 <= position <= 6
    ensures
      var codes := KeysOf(GetPositionOptions([category], [group], position));
      && (forall c :: c in codes ==> Accepts(category, group, position, c))
      && (HasRules(category, group) ==>
            forall c :: Accepts(category, group, position, c) <==> c in codes)
      && (!HasRules(category, group) ==> codes == "X")
  {
    assert position in [3, 4, 5, 6];
    assert [category] + [group] == [category, group];
    RulesInvariant(category, group, position);
  }

  /** Choosing every character of a code from the options offered at its
      position, given the characters chosen before it, yields a code the
      validator accepts. */
  lemma ChosenOptionsAreValid(code: string)
    requires |code| == 6
    requires code[0] in KeysOf(GetPositionOptions("", "", 1))
    requires code[1] in KeysOf(GetPositionOptions([code[0]], "", 2))
    requires forall p :: 3 <= p <= 6 ==>
      code[p - 1] in KeysOf(GetPositionOptions([code[0]], [code[1]], p))
    ensures Validate(code).0
  {
    ChosenClass(code[0], code[1]);
    ChosenAttributes(code);
    LegalUpperCodeIsValid(code);
  }

  /** A category and a group chosen from the options of positions 1 and 2
      form a legal pair of upper-case letters. */
  lemma ChosenClass(category: char, group: char)
    requires category in KeysOf(GetPositionOptions("", "", 1))
    requires group in KeysOf(GetPositionOptions([category], "", 2))
    ensures IsLegalPair(category, group) && IsUpper(category) && IsUpper(group)
  {
    ClassOptions("", "", 1);
    ClassOptions([category], "", 2);
    GroupsInvariant(category);
    assert IsUpper(group) by {
      var i :| 0 <= i < |GroupCodes(category)| && GroupCodes(category)[i] == group;
    }
  }

  /** Attribute codes chosen from the options of a legal pair are
      upper-case letters their tables list. */
  lemma ChosenAttributes(code: string)
    requires |code| == 6 && IsLegalPair(code[0], code[1])
    requires forall p :: 3 <= p <= 6 ==>
      code[p - 1] in KeysOf(GetPositionOptions([code[0]], [code[1]], p))
    ensures forall i :: 2 <= i < 6 ==> IsUpper(code[i])
    ensures forall p :: 3 <= p <= 6 && AttributeCodes(code[0], code[1], p).Some? ==>
      code[p - 1] in AttributeCodes(code[0], code[1], p).value
  {
    forall p | 3 <= p <= 6
      ensures IsUpper(code[p - 1])
      ensures AttributeCodes(code[0], code[1], p).Some? ==>
        code[p - 1] in AttributeCodes(code[0], code[1], p).value
    {
      ChosenAttribute(code[0], code[1], p, code[p - 1]);
    }
    forall i | 2 <= i < 6
      ensures IsUpper(code[i])
    {
      assert code[(i + 1) - 1] == code[i];
      ChosenAttribute(code[0], code[1], i + 1, code[i]);
    }
  }

  /** An upper-case code with a legal pair and, at each position with a
      table, a listed letter, is valid. */
  lemma LegalUpperCodeIsValid(code: string)
    requires |code| == 6 && forall i :: 0 <= i < 6 ==> IsUpper(code[i])
    requires IsLegalPair(code[0], code[1])
    requires forall p :: 3 <= p <= 6 && AttributeCodes(code[0], code[1], p).Some? ==>
      code[p - 1] in AttributeCodes(code[0], code[1], p).value
    ensures Validate(code).0
  {
    assert UpperString(code) == code;
    ValidIff(code);
  }

  /** An attribute code chosen from the options of a legal pair is an
      upper-case letter that the position's table, if any, lists. */
  lemma ChosenAttribute(category: char, group: char, position: int, code: char)
    requires IsLegalPair(category, group) && 3 <= position <= 6
    requires code in KeysOf(GetPositionOptions([category], [group], position))
    ensures IsUpper(code)
    ensures AttributeCodes(category, group, position).Some? ==>
      code in AttributeCodes(category, group, position).value
  {
    AttributeOptions(category, group, position);
    RulesInvariant(category, group, position);
    if HasRules(category, group) {
      var legal := AttributeCodes(category, group, position).value;
      var i :| 0 <= i < |legal| && legal[i] == code;
    }
  }
}
