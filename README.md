# ISO 10962 CFI code validator, modelled in Dafny

A CFI (Classification of Financial Instruments) code has six letters:
- a category;
- a group within that category;
- four attributes, whose legal letters depend on the category+group pair.

The Python class `CFIValidator` holds three constant tables:
- `CATEGORIES`: 13 categories.
- `GROUPS`: each category's groups.
- `ATTRIBUTES`: for nine category+group pairs, the legal letters at positions 3 to 6.

These tables are the repository's own subset of ISO 10962. The class checks a code against them in a fixed order:
1. Non-empty, length 6, all letters.
2. Upper-case the code.
3. Category, then group, then positions 3 to 6 from left to right.

It stops at the first failure.

The class comes in two copies:
- `cfi_validator.py`: a compact `validate` that returns `(is_valid, message)`.
- `cfi_validator_test.py`: an extended copy. Its `validate` also fills a six-entry `positions_info` record. It adds the option lookup `get_position_options` and a generator that can resume from a user-supplied prefix.

Both files define `format_attribute_options`, with the same body.

The model has one module per part:

| file | module | what it holds |
|---|---|---|
| `wrappers.dfy` | `Wrappers` | `Option` |
| `ascii.dfy` | `Ascii` | `str.isalpha` and `str.upper`/`lower` on ASCII |
| `taxonomy.dfy` | `Taxonomy` | the three tables and their invariants |
| `validator.dfy` | `Validator` | the compact `validate`, as a function, with the failure messages as a datatype |
| `detailed.dfy` | `Detailed` | the detailed `validate`, as a method (see below) |
| `options.dfy` | `Options` | `get_position_options` and `format_attribute_options`, and a parser proving the rendering loses nothing |
| `generator.dfy` | `Generator` | the generator's prefix resumption, each prompt's acceptance rule, the filling of the remaining positions, and the final re-validation |

The detailed `validate` is a method that builds the records position by position. The Python code updates one dict in place; the model holds the records as a `map<int, PositionInfo>` value that each step replaces with an updated copy. Its contract says three things:
- Its `(ok, message)` equals that of the compact validator.
- The records before the failing position passed.
- The failing record carries the returned message, and the records after it are untouched.

The tables appear identically in both Python files, so one `Taxonomy` module serves both.

Each Python dict is modelled as two parts:
- a string of its keys, in the order they appear in the source;
- a lookup function for the descriptions.

A failure message is a `Message` value rather than an f-string. It keeps everything the text shows:
- the offending character;
- the 1-based position;
- the pair;
- the legal keys, in table order.

## Model

| member | source | states |
|---|---|---|
| Ascii.UpperString | cfi_validator.py:377 | `str.upper()` keeps the length and upper-cases each ASCII letter |
| Ascii.UpperOfLower | cfi_validator.py:377 | upper-casing a lower-cased string gives the upper-cased original |
| Ascii.CaseKeepsAlphabetic | cfi_validator.py:374-377 | upper- and lower-casing never change whether a string passes `isalpha()` |
| Taxonomy.CategoriesInvariant | cfi_validator.py:12-26 | CATEGORIES has 13 distinct upper-case keys |
| Taxonomy.GroupsCoverCategories | cfi_validator.py:29-143 | GROUPS has an entry exactly for the keys of CATEGORIES |
| Taxonomy.GroupsInvariant | cfi_validator.py:29-143 | every category's group table is non-empty, with distinct upper-case keys |
| Taxonomy.RulesArePairs | cfi_validator.py:146-354 | exactly nine pairs have attribute rules, and each is a legal category+group pair |
| Taxonomy.RulesInvariant | cfi_validator.py:146-354 | a ruled pair has a table at every position 3 to 6 and nowhere else; every table has distinct upper-case keys and lists 'X' |
| Validator.Accepts | cfi_validator.py:396-413 | the position guard accepts only letters; at a position without a table it accepts exactly the letters |
| Validator.Rejection | cfi_validator.py:396-413 | a refusal is InvalidAttribute naming the position and the character, or the positional alphabetic message |
| Validator.CheckAttributes | cfi_validator.py:389-413 | the position loop returns None exactly when every position from p on is accepted; otherwise it returns the refusal of the first position refused |
| Validator.Validate | cfi_validator.py:357-415 | the bool is true exactly when the message is the success message |
| Validator.ValidIff | cfi_validator.py:357-415 | validate accepts exactly the codes of a declarative, order-free reading of the tables (`IsCfiCode`); on success it names the category and group of the upper-cased code |
| Validator.ShapeFailures | cfi_validator.py:368-375 | empty input fails first; any other length than 6 fails next, whatever the content; then a non-letter fails, before any table lookup |
| Validator.CategoryFailure | cfi_validator.py:379-382 | the category fails exactly when the shape passes and the upper-cased first letter is not a category; the message lists all categories in order |
| Validator.GroupFailure | cfi_validator.py:384-387 | the group fails exactly when the category passes and the second letter is not one of its groups; the message lists that category's groups |
| Validator.AttributeFailure | cfi_validator.py:389-402 | an attribute fails exactly when the pair is legal and some position 3 to 6 holds a letter its table does not list |
| Validator.AttributeFailureNamesFirst | cfi_validator.py:393-402 | the refusal names the first position, from the left, whose letter is not listed; it gives that letter, the pair and the table's keys in order |
| Validator.FirstRefusal | cfi_validator.py:393-402 | on a six-letter code, the loop's refusal is always InvalidAttribute at the first position whose table does not list its letter |
| Validator.RejectionOfLetter | cfi_validator.py:396-406 | a letter is only ever refused by a table, so the isalpha fallback never fires |
| Validator.AcceptsLetter | cfi_validator.py:396-413 | on a letter, the position check reduces to table membership |
| Validator.NeverNotAlphabeticAt | cfi_validator.py:403-413 | with ASCII case mapping, "Character at position N must be alphabetic" is never returned |
| Validator.CaseInsensitive | cfi_validator.py:377 | validate of the upper-cased and of the lower-cased input equals validate of the input |
| Validator.FillerIsValid | cfi_validator.py:146-354 | a legal pair followed by XXXX is valid |
| Validator.ExampleValid | cfi_validator.py:415 | ESVNFB is valid for Equities - Shares |
| Validator.ExampleShapeFailures | cfi_validator.py:368-375 | "", ESVNF and ES1NFB fail the three shape checks |
| Validator.ExampleCategoryFailure | cfi_validator.py:380-382 | ZSVNFB fails on category Z and lists all 13 categories |
| Validator.ExampleGroupFailure | cfi_validator.py:385-387 | EZVNFB fails on group Z of E and lists E's groups |
| Validator.ExampleAttributeFailure | cfi_validator.py:400-402 | ESANFB fails at position 3 with A, pair ES and options VNRX |
| Detailed.Validate | cfi_validator_test.py:367-473 | returns the compact validator's bool and message for every input; after a shape failure all six records are blank; otherwise the records follow `RecordsUpTo` for the position the message stops at |
| Detailed.BlankRecords | cfi_validator_test.py:378-385 | the six records start with their description and every other field None |
| Detailed.ValidateLetters | cfi_validator_test.py:397-473 | after the shape checks: the same result as the compact validator, with the records up to the stopping position |
| Detailed.CheckClass | cfi_validator_test.py:399-421 | positions 1 and 2 pass exactly for a legal pair; a failure records InvalidCategory or InvalidGroup at its position and leaves the later records blank |
| Detailed.CheckRuledAttributes | cfi_validator_test.py:427-453 | for a ruled pair, the loop returns what the compact loop returns; passed positions get the table's meaning, and the failing one gets the message |
| Detailed.CheckUnruledAttributes | cfi_validator_test.py:454-471 | for an unruled pair, the same, with the meaning "Not applicable" for X and "Custom attribute" otherwise |
| Detailed.RecordPassed | cfi_validator_test.py:401-405 | a passing position gets its letter, its meaning and valid=True |
| Detailed.RecordFailed | cfi_validator_test.py:406-409 | a failing position gets its letter, valid=False and the error, and the later records stay blank |
| Detailed.RecordsRead | cfi_validator_test.py:401-473 | positions before the stop are valid with the upper-cased letter; the stop position is invalid with the returned message as its error; later positions have value, meaning and valid all None |
| Detailed.MeaningSources | cfi_validator_test.py:404-467 | a meaning is the category name, the group name, the table's description for a ruled pair, and for an unruled pair "Not applicable/Not specified" for X and "Custom attribute (no predefined meaning)" otherwise |
| Detailed.FirstRejection | cfi_validator_test.py:428-453 | when positions 3..k-1 pass and k does not, the compact loop's result is the refusal at k |
| Options.GetPositionOptions | cfi_validator_test.py:496-524 | `{}` is returned exactly when the position is outside 1 to 6, position 2 lacks a known category, or an attribute position lacks a category or a group; every offered key is an upper-case letter |
| Options.FormatAttributeOptions | cfi_validator_test.py:476-493 | the rendering always starts with an option line "  K - ", whose key is the table's first key, or X without a table |
| Options.Join | cfi_validator_test.py:491 | `"\n".join` is empty for no lines, starts with the first line, and follows it by a newline when more lines come |
| Options.TableAt | cfi_validator_test.py:488-490 | a table is found only for a two-letter ruled key, and then it is the pair's table |
| Options.ClassOptions | cfi_validator_test.py:509-524 | position 1 offers exactly the categories; position 2 offers exactly a known category's groups, and nothing without one; positions outside 1 to 6 offer nothing |
| Options.AttributeOptions | cfi_validator_test.py:517-522 | at positions 3 to 6 of a legal pair, every offered letter is accepted by validate there; a ruled pair offers exactly the accepted letters; an unruled pair offers only X |
| Options.ChosenOptionsAreValid | cfi_validator_test.py:496-524 | a code chosen position by position from the offered options is valid |
| Options.FormatRendersOptions | cfi_validator_test.py:476-493 | for positions 3 to 6, the rendered text is one "  K - desc" line per entry of `get_position_options`, in table order, or the single X line |
| Options.FormatRoundTrip | cfi_validator.py:418-435 | parsing the rendered text gives back exactly the offered options, when no description holds a newline |
| Options.ParseOptionsInverse | cfi_validator_test.py:491 | parsing joined option lines gives back the items |
| Options.SplitJoin | cfi_validator_test.py:491 | splitting on newlines undoes `"\n".join` of newline-free lines |
| Options.ParseOptionLineInverse | cfi_validator_test.py:491 | one option line parses back to its key and description |
| Generator.ResumePrefix | cfi_validator_test.py:542-591 | the kept code satisfies `KeptPrefix`, and the returned category and group are its first two letters, or None |
| Generator.KeepAttributes | cfi_validator_test.py:570-591 | the attribute loop keeps a prefix of the input of length 2 to 6; every kept letter passes the rule; it stops only at the end, at position 6, or at a refused letter |
| Generator.ClassLength | cfi_validator_test.py:549-566 | none of the first two letters is kept for an unknown category; both are kept exactly for a legal pair |
| Generator.KeptPrefixUnique | cfi_validator_test.py:542-591 | at most one code satisfies `KeptPrefix` for a prefix, so the declarative reading fixes the result |
| Generator.NotLonger | cfi_validator_test.py:572-591 | a kept code cannot be shorter than another one, since it stops only at a refused letter |
| Generator.PaddedPrefixIsValid | cfi_validator_test.py:542-591 | a kept prefix of at least two letters, padded with X to six, is accepted by validate |
| Generator.CompletedIsValid | cfi_validator_test.py:677-684 | six letters with a legal pair whose attributes all pass the generator's rule form a valid code |
| Generator.KeptIsListed | cfi_validator_test.py:575-577 | a letter the rule keeps at a position with a table is listed there |
| Generator.CategoryAnswer | cfi_validator_test.py:600-605 | step 1 accepts exactly a one-letter answer whose upper-case form is a category |
| Generator.GroupAnswer | cfi_validator_test.py:616-621 | step 2 accepts exactly a one-letter answer that upper-cases to a group of the category |
| Generator.AttributeAnswer | cfi_validator_test.py:640-674 | the prompt as written: with a table, a line is accepted exactly when it is one listed letter or X in either case, and the upper-cased line is appended; without one, a line is accepted exactly when it is empty (appending X) or alphabetic, and the whole upper-cased line is appended, however long |
| Generator.MultiLetterAnswerBreaksCode | cfi_validator_test.py:660-684 | for HF, the answer "ab" at position 3 is taken as AB, and the code it leads to fails the final re-validation with the length message |
| Generator.MultiLetterAnswerOverruns | cfi_validator_test.py:660-684 | at any position without a table, a line of two or more letters is appended whole, and whatever one-letter answers follow, the final re-validation refuses the code with the length message |
| Generator.FixedAttributeAnswer | cfi_validator_test.py:640-674 | the corrected prompt: an accepted answer is one letter the rule keeps |
| Generator.FixedAnswerAgrees | cfi_validator_test.py:640-674 | the corrected prompt accepts only what the written one accepts, with the same letter; it refuses only answers longer than one letter |
| Generator.Finish | cfi_validator_test.py:627-684 | filling the remaining positions with accepted answers and re-validating: the result is valid, six letters, extends the kept code, and holds the letter of answer i at position k+1+i, where k is the kept code's length; it is None exactly when the kept code holds a letter the rule refuses |
| Generator.FillAttributes | cfi_validator_test.py:630-674 | one answer per remaining position gives six letters; the letter at position k+1+i, where k is the kept code's length, is that of answer i, and each passes the rule |
| Generator.RefusedAttribute | cfi_validator_test.py:677-684 | an upper-case code with a letter the rule refuses is rejected by validate |

## Left out

- `isinstance(cfi_code, str)` is not modelled: the argument is typed `string`, so a non-string value cannot be expressed. Python's None would fail the same first check as the empty string does.
- `isalpha` and `upper` are ASCII only. Python accepts non-ASCII letters, and its `upper` can change the length ('ß' becomes "SS") or yield combining marks that are not letters ('ΐ' becomes 'Ι' followed by U+0308 and U+0301). The model covers neither.
- Messages are a `Message` datatype, not f-strings. The success message `ValidFor(category, group)` stands for "Valid CFI code for <name> - <name>"; the names come from `CategoryName` and `GroupName`.
- Detailed.Validate: a record's `description` and `meaning` are `Text` values naming their table entry. `Render` gives the string. The records do not copy the strings themselves.
- Options.GetPositionOptions: Python's None for the category or group is modelled as the empty string. Both are falsy, and neither is a key of any table.
- Options.FormatRoundTrip: assumes no description holds a newline instead of proving it of the tables, because checking every literal description costs too much to verify.
- Console I/O is left out: `print`, the `input` prompt loops, `display_cfi_details`, `main`, and the compact generator in `cfi_validator.py`.
  - Generator.Finish takes the accepted answers directly, one per position. A refused answer makes the prompt ask again and changes nothing, so it is not modelled.
  - Generator.Finish takes the already-built code as input. The steps 1 and 2 that build it (when the prefix supplied neither category nor group) appear only as the acceptance rules `CategoryAnswer` and `GroupAnswer`.
- The `valid_prefix` flag in `generate_cfi_code` is never read, so it is not modelled.
- The per-position alphabetic checks of both validators are modelled. For ASCII input they cannot fire once the whole code is alphabetic, and `Validator.NeverNotAlphabeticAt` proves this of the model. In Python they can fire on non-ASCII input. For example, "HFΐXXX" passes the length and `isalpha` checks, but upper-cases to eight characters with two combining marks, and cfi_validator.py:410-413 then reports position 4 as not alphabetic.

Two behaviours of the code are modelled as written:
- After a failure, the detailed records of later positions keep `valid` as None. They are not set to false.
- `get_position_options` returns `{}` for an unknown category; it reports no failure.

## Findings

| source | as written | input that shows it | evidently intended | confidence | as-written member | corrected member |
|---|---|---|---|---|---|---|
| cfi_validator_test.py:660-674 | at an attribute position without a table, any alphabetic answer is appended whole, however long | pair HF (no rules), answer "ab" at position 3, then X, X, X: the code is HFABXXX, seven letters, and the final `validate` refuses it with the length message | one letter per position, as the prompt "Please enter an alphabetic character" asks | medium, not executed | Generator.AttributeAnswer, Generator.MultiLetterAnswerBreaksCode, Generator.MultiLetterAnswerOverruns | Generator.FixedAttributeAnswer, Generator.Finish |
