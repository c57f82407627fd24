/** The classification tables of the validator: the thirteen categories,
    the groups legal under each category, and the attribute values legal at
    positions 3 to 6 for nine category+group pairs.  They are a partial,
    repository-specific subset of ISO 10962, held with the same entries, in
    the same order and with the same descriptions as the source.

    Each Python dict is held as its keys, a string in the order of the
    literal (the order messages and option listings enumerate), together
    with a lookup function for the descriptions. */
module Taxonomy {
  import opened Wrappers
  import opened Ascii

  /** The meaning shown for 'X' at a position no table defines, and the
      option listed when a position has no table. */
  const NOT_APPLICABLE: string := "Not applicable/Not specified"

  const CATEGORY_CODES: string := "EDROFSHMIJKLT"

  /** `CATEGORIES[category]`: the category's description.  Only ever
      applied to a key of CATEGORIES; any other character gives "". */
  function CategoryName(category: char): string
  {
    match category
    case 'E' => "Equities"
    case 'D' => "Debt instruments"
    case 'R' => "Entitlements (Rights)"
    case 'O' => "Options"
    case 'F' => "Futures"
    case 'S' => "Swaps"
    case 'H' => "Forward rate agreements and forward foreign exchange"
    case 'M' => "Others/Miscellaneous"
    case 'I' => "Spot"
    case 'J' => "Deposits, Credits and Current accounts"
    case 'K' => "Loans"
    case 'L' => "Spot foreign exchange"
    case 'T' => "Referential instruments"
    case _ => ""
  }

  /** `GROUPS.get(category, {}).keys()`, in the order of the literal; ""
      when GROUPS has no entry for `category`. */
  function GroupCodes(category: char): string
  {
    match category
    case 'E' => "SUFLHRPCX"
    case 'D' => "BTCYGFPSI"
    case 'R' => "SDPLFQWBT"
    case 'O' => "CPXWFSRIJ"
    case 'F' => "FXIRECOWB"
    case 'S' => "IFBXSWRKP"
    case 'H' => "FIX"
    case 'M' => "CROF"
    case 'I' => "XFCESO"
    case 'J' => "DCNRS"
    case 'K' => "LCMSGPFA"
    case 'L' => "S"
    case 'T' => "IRFUVN"
    case _ => ""
  }

  /** `GROUPS[category][group]`: the group's description.  Only ever
      applied to a legal pair; any other pair gives "". */
  function GroupName(category: char, group: char): string
  {
    match (category, group)
    case ('E', 'S') => "Shares"
    case ('E', 'U') => "Units (e.g., Unit trusts/Mutual funds)"
    case ('E', 'F') => "Exchange Traded Funds (ETF)"
    case ('E', 'L') => "Limited partnership units"
    case ('E', 'H') => "Equity-held investment instruments"
    case ('E', 'R') => "Real Estate Investment Trusts (REITs)"
    case ('E', 'P') => "Protected and guaranteed equities"
    case ('E', 'C') => "Cooperative"
    case ('E', 'X') => "Other/Miscellaneous equities"
    case ('D', 'B') => "Bonds"
    case ('D', 'T') => "Treasury notes/bonds"
    case ('D', 'C') => "Convertible bonds"
    case ('D', 'Y') => "Money market instruments"
    case ('D', 'G') => "Structured instruments (with capital guarantee)"
    case ('D', 'F') => "Bonds with warrants attached"
    case ('D', 'P') => "Perpetual bonds"
    case ('D', 'S') => "Structured instruments (without capital guarantee)"
    case ('D', 'I') => "Inflation linked bonds"
    case ('R', 'S') => "Subscription rights"
    case ('R', 'D') => "Dividend right certificates"
    case ('R', 'P') => "Preference"
    case ('R', 'L') => "Loyalty premiums"
    case ('R', 'F') => "Founders shares"
    case ('R', 'Q') => "Preference shares"
    case ('R', 'W') => "Warrants"
    case ('R', 'B') => "Redeemable preferred stocks"
    case ('R', 'T') => "Miscellaneous entitlements"
    case ('O', 'C') => "Call options"
    case ('O', 'P') => "Put options"
    case ('O', 'X') => "Options on options"
    case ('O', 'W') => "Warrants"
    case ('O', 'F') => "Future options"
    case ('O', 'S') => "Spread options"
    case ('O', 'R') => "Basket options"
    case ('O', 'I') => "Index options"
    case ('O', 'J') => "Currency options"
    case ('F', 'F') => "Financial futures"
    case ('F', 'X') => "Options on futures"
    case ('F', 'I') => "Index futures"
    case ('F', 'R') => "Interest rate futures"
    case ('F', 'E') => "Currency futures"
    case ('F', 'C') => "Commodity futures"
    case ('F', 'O') => "Other futures"
    case ('F', 'W') => "Weather-related futures"
    case ('F', 'B') => "Bond futures"
    case ('S', 'I') => "Interest rate"
    case ('S', 'F') => "Foreign exchange"
    case ('S', 'B') => "Basis"
    case ('S', 'X') => "Exchange swaps and cross-currency swaps"
    case ('S', 'S') => "Securities"
    case ('S', 'W') => "Weather-related swaps"
    case ('S', 'R') => "Return swaps"
    case ('S', 'K') => "Commodity"
    case ('S', 'P') => "Options on swaps (swaptions)"
    case ('H', 'F') => "Forward foreign exchange agreements"
    case ('H', 'I') => "Forward rate agreements"
    case ('H', 'X') => "Other"
    case ('M', 'C') => "Commodity"
    case ('M', 'R') => "Reference rate"
    case ('M', 'O') => "Other"
    case ('M', 'F') => "Foreign exchange"
    case ('I', 'X') => "Other"
    case ('I', 'F') => "Foreign exchange"
    case ('I', 'C') => "Commodity"
    case ('I', 'E') => "Equity"
    case ('I', 'S') => "Securities"
    case ('I', 'O') => "Options"
    case ('J', 'D') => "Deposits"
    case ('J', 'C') => "Credits"
    case ('J', 'N') => "Non-redeemable money market instruments"
    case ('J', 'R') => "Redeemable money market instruments"
    case ('J', 'S') => "Structured capital guarantee"
    case ('K', 'L') => "Leveraged"
    case ('K', 'C') => "Consumer"
    case ('K', 'M') => "Mortgage"
    case ('K', 'S') => "Syndicated"
    case ('K', 'G') => "Government"
    case ('K', 'P') => "Private"
    case ('K', 'F') => "Federal agency"
    case ('K', 'A') => "Agriculture"
    case ('L', 'S') => "Spot"
    case ('T', 'I') => "Interest/Yield rates"
    case ('T', 'R') => "Reference rates"
    case ('T', 'F') => "Foreign exchange rates"
    case ('T', 'U') => "Economic indicators"
    case ('T', 'V') => "Inflation rates"
    case ('T', 'N') => "Reference indexes"
    case _ => ""
  }

  /** `category + group in ATTRIBUTES`: the nine pairs that carry
      attribute rules. */
  predicate HasRules(category: char, group: char)
  {
    match (category, group)
    case ('E', 'S') => true
    case ('E', 'U') => true
    case ('E', 'F') => true
    case ('D', 'B') => true
    case ('D', 'T') => true
    case ('O', 'C') => true
    case ('O', 'P') => true
    case ('F', 'F') => true
    case ('S', 'I') => true
    case _ => false
  }

  /** `ATTRIBUTES.get(category + group, {}).get(position)`, keys only, in
      the order of the literal: the letters legal at attribute position
      `position`, or None when the pair has no table for that position. */
  function AttributeCodes(category: char, group: char, position: int): Option<string>
  {
    match (category, group, position)
    case ('E', 'S', 3) => Some("VNRX")
    case ('E', 'S', 4) => Some("RNX")
    case ('E', 'S', 5) => Some("PFX")
    case ('E', 'S', 6) => Some("BRX")
    case ('E', 'U', 3) => Some("OCX")
    case ('E', 'U', 4) => Some("RNX")
    case ('E', 'U', 5) => Some("DCX")
    case ('E', 'U', 6) => Some("BRX")
    case ('E', 'F', 3) => Some("OCX")
    case ('E', 'F', 4) => Some("RNX")
    case ('E', 'F', 5) => Some("SPHX")
    case ('E', 'F', 6) => Some("BRX")
    case ('D', 'B', 3) => Some("FZVIX")
    case ('D', 'B', 4) => Some("SUX")
    case ('D', 'B', 5) => Some("GSCX")
    case ('D', 'B', 6) => Some("BRX")
    case ('D', 'T', 3) => Some("FZVIX")
    case ('D', 'T', 4) => Some("SUX")
    case ('D', 'T', 5) => Some("GSX")
    case ('D', 'T', 6) => Some("BRX")
    case ('O', 'C', 3) => Some("ABEX")
    case ('O', 'C', 4) => Some("SNX")
    case ('O', 'C', 5) => Some("PCX")
    case ('O', 'C', 6) => Some("X")
    case ('O', 'P', 3) => Some("ABEX")
    case ('O', 'P', 4) => Some("SNX")
    case ('O', 'P', 5) => Some("PCX")
    case ('O', 'P', 6) => Some("X")
    case ('F', 'F', 3) => Some("X")
    case ('F', 'F', 4) => Some("SNX")
    case ('F', 'F', 5) => Some("PCX")
    case ('F', 'F', 6) => Some("X")
    case ('S', 'I', 3) => Some("FLVX")
    case ('S', 'I', 4) => Some("SMX")
    case ('S', 'I', 5) => Some("X")
    case ('S', 'I', 6) => Some("X")
    case _ => None
  }

  /** `ATTRIBUTES[category + group][position][code]`: the attribute's
      meaning.  Only ever applied to a listed code; anything else gives "". */
  function AttributeName(category: char, group: char, position: int, code: char): string
  {
    match (category, group, position, code)
    case ('E', 'S', 3, 'V') => "Voting"
    case ('E', 'S', 3, 'N') => "Non-voting"
    case ('E', 'S', 3, 'R') => "Restricted voting"
    case ('E', 'S', 3, 'X') => "Not applicable/Not specified"
    case ('E', 'S', 4, 'R') => "Restricted"
    case ('E', 'S', 4, 'N') => "Free"
    case ('E', 'S', 4, 'X') => "Not applicable/Not specified"
    case ('E', 'S', 5, 'P') => "Partly paid"
    case ('E', 'S', 5, 'F') => "Fully paid"
    case ('E', 'S', 5, 'X') => "Not applicable/Not specified"
    case ('E', 'S', 6, 'B') => "Bearer"
    case ('E', 'S', 6, 'R') => "Registered"
    case ('E', 'S', 6, 'X') => "Not applicable/Not specified"
    case ('E', 'U', 3, 'O') => "Open-end"
    case ('E', 'U', 3, 'C') => "Closed-end"
    case ('E', 'U', 3, 'X') => "Not applicable/Not specified"
    case ('E', 'U', 4, 'R') => "Restricted"
    case ('E', 'U', 4, 'N') => "Free"
    case ('E', 'U', 4, 'X') => "Not applicable/Not specified"
    case ('E', 'U', 5, 'D') => "Limited dividend"
    case ('E', 'U', 5, 'C') => "Cumulative"
    case ('E', 'U', 5, 'X') => "Not applicable/Not specified"
    case ('E', 'U', 6, 'B') => "Bearer"
    case ('E', 'U', 6, 'R') => "Registered"
    case ('E', 'U', 6, 'X') => "Not applicable/Not specified"
    case ('E', 'F', 3, 'O') => "Open-end"
    case ('E', 'F', 3, 'C') => "Closed-end"
    case ('E', 'F', 3, 'X') => "Not applicable/Not specified"
    case ('E', 'F', 4, 'R') => "Restricted"
    case ('E', 'F', 4, 'N') => "Free"
    case ('E', 'F', 4, 'X') => "Not applicable/Not specified"
    case ('E', 'F', 5, 'S') => "Synthetic"
    case ('E', 'F', 5, 'P') => "Physical"
    case ('E', 'F', 5, 'H') => "Hybrid"
    case ('E', 'F', 5, 'X') => "Not applicable/Not specified"
    case ('E', 'F', 6, 'B') => "Bearer"
    case ('E', 'F', 6, 'R') => "Registered"
    case ('E', 'F', 6, 'X') => "Not applicable/Not specified"
    case ('D', 'B', 3, 'F') => "Fixed rate"
    case ('D', 'B', 3, 'Z') => "Zero coupon"
    case ('D', 'B', 3, 'V') => "Variable rate"
    case ('D', 'B', 3, 'I') => "Inflation linked"
    case ('D', 'B', 3, 'X') => "Not applicable/Not specified"
    case ('D', 'B', 4, 'S') => "Secured/Collateralized"
    case ('D', 'B', 4, 'U') => "Unsecured/Uncollateralized"
    case ('D', 'B', 4, 'X') => "Not applicable/Not specified"
    case ('D', 'B', 5, 'G') => "Government/State guarantee"
    case ('D', 'B', 5, 'S') => "Supranational guarantee"
    case ('D', 'B', 5, 'C') => "Corporate guarantee"
    case ('D', 'B', 5, 'X') => "Not applicable/Not specified"
    case ('D', 'B', 6, 'B') => "Bearer"
    case ('D', 'B', 6, 'R') => "Registered"
    case ('D', 'B', 6, 'X') => "Not applicable/Not specified"
    case ('D', 'T', 3, 'F') => "Fixed rate"
    case ('D', 'T', 3, 'Z') => "Zero coupon"
    case ('D', 'T', 3, 'V') => "Variable rate"
    case ('D', 'T', 3, 'I') => "Inflation linked"
    case ('D', 'T', 3, 'X') => "Not applicable/Not specified"
    case ('D', 'T', 4, 'S') => "Secured/Collateralized"
    case ('D', 'T', 4, 'U') => "Unsecured/Uncollateralized"
    case ('D', 'T', 4, 'X') => "Not applicable/Not specified"
    case ('D', 'T', 5, 'G') => "Government/State guarantee"
    case ('D', 'T', 5, 'S') => "Supranational guarantee"
    case ('D', 'T', 5, 'X') => "Not applicable/Not specified"
    case ('D', 'T', 6, 'B') => "Bearer"
    case ('D', 'T', 6, 'R') => "Registered"
    case ('D', 'T', 6, 'X') => "Not applicable/Not specified"
    case ('O', 'C', 3, 'A') => "American"
    case ('O', 'C', 3, 'B') => "Bermuda"
    case ('O', 'C', 3, 'E') => "European"
    case ('O', 'C', 3, 'X') => "Not applicable/Not specified"
    case ('O', 'C', 4, 'S') => "Standard"
    case ('O', 'C', 4, 'N') => "Non-standard"
    case ('O', 'C', 4, 'X') => "Not applicable/Not specified"
    case ('O', 'C', 5, 'P') => "Physical"
    case ('O', 'C', 5, 'C') => "Cash"
    case ('O', 'C', 5, 'X') => "Not applicable/Not specified"
    case ('O', 'C', 6, 'X') => "Not applicable/Not specified"
    case ('O', 'P', 3, 'A') => "American"
    case ('O', 'P', 3, 'B') => "Bermuda"
    case ('O', 'P', 3, 'E') => "European"
    case ('O', 'P', 3, 'X') => "Not applicable/Not specified"
    case ('O', 'P', 4, 'S') => "Standard"
    case ('O', 'P', 4, 'N') => "Non-standard"
    case ('O', 'P', 4, 'X') => "Not applicable/Not specified"
    case ('O', 'P', 5, 'P') => "Physical"
    case ('O', 'P', 5, 'C') => "Cash"
    case ('O', 'P', 5, 'X') => "Not applicable/Not specified"
    case ('O', 'P', 6, 'X') => "Not applicable/Not specified"
    case ('F', 'F', 3, 'X') => "Not applicable/Not specified"
    case ('F', 'F', 4, 'S') => "Standard"
    case ('F', 'F', 4, 'N') => "Non-standard"
    case ('F', 'F', 4, 'X') => "Not applicable/Not specified"
    case ('F', 'F', 5, 'P') => "Physical"
    case ('F', 'F', 5, 'C') => "Cash"
    case ('F', 'F', 5, 'X') => "Not applicable/Not specified"
    case ('F', 'F', 6, 'X') => "Not applicable/Not specified"
    case ('S', 'I', 3, 'F') => "Fixed-floating"
    case ('S', 'I', 3, 'L') => "Fixed-fixed"
    case ('S', 'I', 3, 'V') => "Floating-floating"
    case ('S', 'I', 3, 'X') => "Not applicable/Not specified"
    case ('S', 'I', 4, 'S') => "Single currency"
    case ('S', 'I', 4, 'M') => "Multi-currency"
    case ('S', 'I', 4, 'X') => "Not applicable/Not specified"
    case ('S', 'I', 5, 'X') => "Not applicable/Not specified"
    case ('S', 'I', 6, 'X') => "Not applicable/Not specified"
    case _ => ""
  }

  /** Is `group` a legal group of `category`? */
  predicate IsLegalPair(category: char, group: char)
  {
    category in CATEGORY_CODES && group in GroupCodes(category)
  }

  /** The shape of every key string: pairwise distinct upper-case letters. */
  predicate IsCodeString(codes: string)
  {
    && (forall i, j :: 0 <= i < j < |codes| ==> codes[i] != codes[j])
    && (forall i :: 0 <= i < |codes| ==> IsUpper(codes[i]))
  }

  /** The shape of every attribute table: a code string that lists 'X'. */
  predicate IsAttributeCodes(codes: string)
  {
    IsCodeString(codes) && 'X' in codes
  }

  // ---------------------------------------------------------------------
  // Table invariants, checked on the literal entries.
  // ---------------------------------------------------------------------

  /** CATEGORIES has thirteen distinct upper-case keys. */
  lemma CategoriesInvariant()
    ensures |CATEGORY_CODES| == 13 && IsCodeString(CATEGORY_CODES)
  {
  }

  /** GROUPS has an entry for exactly the keys of CATEGORIES. */
  lemma GroupsCoverCategories(category: char)
    ensures GroupCodes(category) != "" <==> category in CATEGORY_CODES
  {
  }

  /** Every category owns a non-empty table of distinct upper-case groups. */
  lemma GroupsInvariant(category: char)
    requires category in CATEGORY_CODES
    ensures IsUpper(category)
    ensures |GroupCodes(category)| > 0 && IsCodeString(GroupCodes(category))
  {
    CategoriesInvariant();
    if category in "ED" {
      GroupTablesED();
    } else if category in "RO" {
      GroupTablesRO();
    } else if category in "FS" {
      GroupTablesFS();
    } else if category in "HMI" {
      GroupTablesHMI();
    } else {
      GroupTablesJKLT();
    }
  }

  lemma GroupTablesED()
    ensures IsCodeString(GroupCodes('E'))
    ensures IsCodeString(GroupCodes('D'))
  {
  }

  lemma GroupTablesRO()
    ensures IsCodeString(GroupCodes('R'))
    ensures IsCodeString(GroupCodes('O'))
  {
  }

  lemma GroupTablesFS()
    ensures IsCodeString(GroupCodes('F'))
    ensures IsCodeString(GroupCodes('S'))
  {
  }

  lemma GroupTablesHMI()
    ensures IsCodeString(GroupCodes('H'))
    ensures IsCodeString(GroupCodes('M'))
    ensures IsCodeString(GroupCodes('I'))
  {
  }

  lemma GroupTablesJKLT()
    ensures IsCodeString(GroupCodes('J'))
    ensures IsCodeString(GroupCodes('K'))
    ensures IsCodeString(GroupCodes('L'))
    ensures IsCodeString(GroupCodes('T'))
  {
  }

  /** Exactly nine pairs carry attribute rules, and every one of them is a
      legal category+group pair. */
  lemma RulesArePairs(category: char, group: char)
    ensures HasRules(category, group) <==>
      [category, group] in ["ES", "EU", "EF", "DB", "DT", "OC", "OP", "FF", "SI"]
    ensures HasRules(category, group) ==> IsLegalPair(category, group)
  {
  }

  /** A pair with rules has an attribute table, listing 'X', at each of
      positions 3 to 6; no other position and no other pair has one. */
  lemma RulesInvariant(category: char, group: char, position: int)
    ensures AttributeCodes(category, group, position).Some? <==>
      HasRules(category, group) && 3 <= position <= 6
    ensures AttributeCodes(category, group, position).Some? ==>
      IsAttributeCodes(AttributeCodes(category, group, position).value)
  {
    var codes := AttributeCodes(category, group, position);
    if codes.Some? {
      assert codes.value in ATTRIBUTE_CODE_STRINGS;
      AttributeCodeStrings();
    }
  }

  /** Every key string of an attribute table, once each. */
  const ATTRIBUTE_CODE_STRINGS: seq<string> :=
    ["VNRX", "RNX", "PFX", "BRX", "OCX", "DCX", "SPHX", "FZVIX", "SUX", "GSCX",
     "GSX", "ABEX", "SNX", "PCX", "X", "FLVX", "SMX"]

  lemma AttributeCodeStrings()
    ensures forall codes :: codes in ATTRIBUTE_CODE_STRINGS ==> IsAttributeCodes(codes)
  {
    forall codes | codes in ATTRIBUTE_CODE_STRINGS
      ensures IsAttributeCodes(codes)
    {
      if codes in ATTRIBUTE_CODE_STRINGS[..6] {
        AttributeCodeStringsFirst(codes);
      } else if codes in ATTRIBUTE_CODE_STRINGS[6..12] {
        AttributeCodeStringsMiddle(codes);
      } else {
        assert codes in ATTRIBUTE_CODE_STRINGS[12..];
        AttributeCodeStringsLast(codes);
      }
    }
  }

  lemma AttributeCodeStringsFirst(codes: string)
    requires codes in ATTRIBUTE_CODE_STRINGS[..6]
    ensures IsAttributeCodes(codes)
  {
  }

  lemma AttributeCodeStringsMiddle(codes: string)
    requires codes in ATTRIBUTE_CODE_STRINGS[6..12]
    ensures IsAttributeCodes(codes)
  {
  }

  lemma AttributeCodeStringsLast(codes: string)
    requires codes in ATTRIBUTE_CODE_STRINGS[12..]
    ensures IsAttributeCodes(codes)
  {
  }
}
