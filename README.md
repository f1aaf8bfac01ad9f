# RLPValue, modelled in Dafny

RLPValue is a dynamically typed JSON value container, forked from UniValue.
A value holds exactly one kind at a time: null, boolean, number, string,
array or object. A number is kept as the decimal text it was given, never as
a machine number. The test file `test/object.cpp` fixes the observable
contract of the class in five test cases. This project models that contract:

- `value.dfy`: the value variant (`JsonValue.Value`), with the raw accessors
  `getValStr`, `size`, `empty` and lenient indexing, where an index past the
  end gives null.
- `numerals.dfy`: numeral text.
  - The JSON number grammar of section 6 of RFC 8259, stated declaratively.
  - The tokenizer that recognises it, proved sound and exact against the
    grammar.
  - Canonical decimal formatting of integers.
  - The range-checked integer reading behind `get_int` and `get_int64`.
- `accessors.dfy`: the typed accessors. Each returns an error value where
  the library throws.
- `reader.dfy` and `writer.dfy`: the JSON reader and writer.
  - The reader is recursive descent.
  - It skips the whitespace of section 2 of RFC 8259.
  - It decodes the string escapes of section 7 of RFC 8259, including `\u0000` and
    surrogate pairs.
  - It accepts exactly one document, with only whitespace after it.
  - The writer emits numeral text verbatim. It escapes `"`, `\`, the short
    control escapes, and other control characters as `\u00xx`.
- `roundtrip.dfy`: what reader and writer promise about each other.
  - Reading the written form of any well-formed value gives the value back.
  - Whitespace around a document is ignored.
  - Anything else after a document makes the read fail.
- `container.dfy`: the `RLPValue` class. It has one mutable field, `val`, and
  constructors, setters, `clear`, `push_back`, `push_backV` and `read`, each
  stating the new state. `Valid()` is the invariant every method keeps: every
  number held, at any depth, is a numeral.
- `object_tests.dfy`: the five test cases as methods.
  - Each method makes the test's calls on `RLPValue` objects and returns
    what the test inspects.
  - The postconditions are the test's expectations, proved from the model.
  - The array case disagrees with the test; see "## Findings".

## Model

| member | source | states |
|---|---|---|
| Numerals.ParseNumber | test/object.cpp:200-208 | what the tokenizer takes from the front of a text is a numeral of the grammar, and the text is exactly that numeral followed by the rest |
| Numerals.ParseNumberExact | test/object.cpp:200-208 | every numeral is taken in full and verbatim when the next character cannot continue it, so "1.10000000" keeps its trailing zeros |
| Numerals.NumberEndNumeral | test/object.cpp:200-208 | the text the tokenizer recognises is a numeral on its own |
| Numerals.NumberEndWhole | test/object.cpp:139-143 | the tokenizer consumes a whole text exactly when that text is a numeral of the grammar |
| Numerals.ValidNumStr | test/object.cpp:139-143 | the check behind setNumStr accepts a text exactly when it is a numeral of the grammar, so "-688" passes and "zombocom" fails |
| Numerals.IntText | test/object.cpp:55-68 | the decimal text of an integer is nonempty, starts with a minus sign exactly when the integer is negative, and has a nonempty digit run without a leading zero; IntTextRoundTrip reads it back |
| Numerals.ParseInt | test/object.cpp:88-98 | integer reading succeeds exactly on an optional minus sign followed by a nonempty digit run, and gives a negative result only after a minus sign |
| Numerals.IntTextIsNumeral | test/object.cpp:55-68 | the canonical decimal text of any integer is a numeral |
| Numerals.IntTextRoundTrip | test/object.cpp:90-98 | reading the canonical text of an integer back gives the same integer |
| Numerals.DigitsValueNatText | test/object.cpp:90-98 | the digits of a natural number's canonical text denote that number |
| Numerals.IntegerNumeral | test/object.cpp:88 | a run of digits without a leading zero, optionally after a minus sign, is a numeral |
| Numerals.NatTextSnoc | test/object.cpp:94-95 | appending a digit to a number appends its character to the text |
| Numerals.DigitsValueLowerBound | test/object.cpp:88-89 | a digit run of length k that does not start with zero denotes at least 10^(k-1) |
| JsonValue.ValStr | test/object.cpp:115-117 | getValStr gives the stored text of a string or number and the empty text for every other kind |
| JsonValue.Size | test/object.cpp:119-121 | size counts array elements or object members, and is zero for every other kind |
| JsonValue.IsEmpty | test/object.cpp:175-190 | empty() holds exactly when the value has no element or member; scalars count as empty |
| JsonValue.At | test/object.cpp:187 | indexing inside the bounds gives that child; indexing past the end gives null, whose text is empty |
| Accessors.GetStr | test/object.cpp:99 | get_str succeeds exactly on a string and fails on any other kind with a type mismatch |
| Accessors.GetArray | test/object.cpp:100-105 | get_array succeeds exactly on an array and fails on any other kind with a type mismatch |
| Accessors.GetValues | test/object.cpp:101-106 | getValues gives the children in order exactly for a container, and fails with a type mismatch on any other kind |
| Accessors.GetInt64 | test/object.cpp:88-95 | get_int64 succeeds exactly on a number whose text is an integer in the signed 64-bit range; a non-number is a type mismatch |
| Accessors.GetInt | test/object.cpp:96-98 | get_int succeeds exactly on a number whose text is an integer in the signed 32-bit range; a non-number is a type mismatch |
| Accessors.GetInt64OfIntText | test/object.cpp:90-95 | a number formatted from an integer reads back through get_int64 as that integer exactly when it fits 64 bits, otherwise out of range |
| Accessors.GetIntOfIntText | test/object.cpp:94-98 | the same for get_int and 32 bits: 2147483648 is out of range, 1000 reads back |
| Accessors.NonIntegerNumeral | test/object.cpp:88-98 | a numeral with a fraction or an exponent is refused as out of range by both get_int64 and get_int, however small its value |
| Accessors.LongIntegerOutOfRange | test/object.cpp:88-89 | an integer numeral of twenty or more digits is out of the signed 64-bit range for get_int64 |
| Reader.Read | test/object.cpp:199-203 | whatever the reader accepts is a well-formed value |
| Writer.EscapeChar | test/object.cpp:195 | a plain character is written as itself; any other character becomes an escape of two to six characters that starts with a backslash |
| Writer.Escape | test/object.cpp:194-195 | the escaped form of a text is at least as long as the text and at most six times as long; EscapeRoundTrip decodes it back |
| Writer.Write | test/object.cpp:213 | write() gives a number's text verbatim, a string between quotes, an array between brackets and an object between braces; ReadWrite reads it back |
| RoundTrip.EscapeRoundTrip | test/object.cpp:194-195 | reading the escaped form of any string gives back that string, NUL and control characters included |
| RoundTrip.UnicodeEscapeDecodes | test/object.cpp:194-195 | a control character written as \u00xx decodes to that character |
| RoundTrip.ParseWrite | test/object.cpp:213 | the parser takes back exactly the written form of any well-formed value, leaving whatever follows it |
| RoundTrip.ReadWrite | test/object.cpp:213 | reading the written form of any well-formed value gives that value |
| RoundTrip.ReadWriteRead | test/object.cpp:200-213 | whatever a text reads as, its written form reads as the same value |
| RoundTrip.SkipWsSpec | test/object.cpp:215-220 | whitespace skipping drops exactly the leading whitespace and nothing else |
| RoundTrip.SkipWsEmpty | test/object.cpp:219-220 | nothing is left after skipping whitespace exactly when the text is all whitespace |
| RoundTrip.SkipWsPrefix | test/object.cpp:219-220 | any whitespace before a text is skipped entirely |
| RoundTrip.ParseValueWs | test/object.cpp:104 | a value reads the same after leading whitespace |
| RoundTrip.ReadPadded | test/object.cpp:219-220 | a document with whitespace before and after it reads as the document |
| RoundTrip.ReadRejectsTrailing | test/object.cpp:224-227 | a complete document followed by anything that is not whitespace does not read |
| RoundTrip.ReadAt | test/object.cpp:215-227 | once the text begins with a document, read() succeeds with that document when only whitespace follows it, and fails otherwise |
| Container.Initial | test/object.cpp:43-47 | the typed constructor's value for each kind: an empty container, a string or number holding the given text, false, or null |
| Container.RLPValue.constructor | test/object.cpp:40-41 | a new value is null |
| Container.RLPValue.OfType | test/object.cpp:43-47 | a value of the given kind, as Initial describes; the invariant holds |
| Container.RLPValue.OfStr | test/object.cpp:70-78 | a string value holding the given text |
| Container.RLPValue.OfUInt64 | test/object.cpp:55-58 | a number holding the canonical text of an unsigned 64-bit integer |
| Container.RLPValue.OfInt64 | test/object.cpp:60-63 | a number holding the canonical text of a signed 64-bit integer |
| Container.RLPValue.OfInt32 | test/object.cpp:65-68 | a number holding the canonical text of a 32-bit integer |
| Container.RLPValue.Clear | test/object.cpp:115-117 | clear leaves null with empty text and no children |
| Container.RLPValue.SetArray | test/object.cpp:119-121 | setArray succeeds and leaves an empty array, whatever was held before |
| Container.RLPValue.SetStr | test/object.cpp:123-125 | setStr succeeds and leaves a string with the given text |
| Container.RLPValue.SetInt32 | test/object.cpp:127-129 | setInt on a 32-bit integer succeeds and leaves its canonical text as a number |
| Container.RLPValue.SetInt64 | test/object.cpp:131-133 | the same for a signed 64-bit integer |
| Container.RLPValue.SetUInt64 | test/object.cpp:135-137 | the same for an unsigned 64-bit integer |
| Container.RLPValue.SetNumStr | test/object.cpp:139-143 | setNumStr succeeds exactly on a numeral and then holds it verbatim; otherwise the value is unchanged |
| Container.RLPValue.SetNull | test/object.cpp:145-146 | setNull succeeds and leaves null |
| Container.RLPValue.PushBack | test/object.cpp:153-160 | push_back succeeds exactly on an array or null, and then appends the value at the end; otherwise nothing changes |
| Container.RLPValue.PushBackV | test/object.cpp:162-169 | push_backV appends all the values in order or, on a receiver that is neither array nor null, none |
| Container.RLPValue.Read | test/object.cpp:199-203 | read succeeds exactly when the reader accepts the text, and then holds the document it denotes |
| ObjectTests.ConstructorCase | test/object.cpp:38-79 | every expectation of the constructor test: kinds and texts "foo", "82", "-82", "-688", "yawn", "zappa" |
| ObjectTests.Text2147483648 | test/object.cpp:94-95 | 2147483648 is formatted as "2147483648", which is a numeral |
| ObjectTests.NotNumeralZombocom | test/object.cpp:143 | "zombocom" is not a numeral |
| ObjectTests.BigNumeral | test/object.cpp:88-89 | the twenty-digit text is a numeral that get_int64 refuses as out of range |
| ObjectTests.ReadTrueTen | test/object.cpp:104 | "[true, 10]" reads as the array of true and the number 10 |
| ObjectTests.TypecheckCase | test/object.cpp:81-110 | every expectation of the typecheck test: the accepted numerals, the range failures, the kind failures, and 10 read back from the array |
| ObjectTests.SetCase | test/object.cpp:112-147 | every expectation of the set test, each setter in turn on the same value, with "zombocom" refused |
| ObjectTests.AppendScalars | test/object.cpp:151-160 | an integer and two strings appended to any array, in order |
| ObjectTests.AppendVector | test/object.cpp:162-169 | the reused holder's two successive strings appended to any array, in order |
| ObjectTests.AppendIntegers | test/object.cpp:171-173 | three integers of three widths appended to any array, in order |
| ObjectTests.ArrayCase | test/object.cpp:149-192 | all seven appends succeed, the array holds the eight values in order, and clear empties it |
| ObjectTests.ArrayCaseReads | test/object.cpp:175-187 | the built array is not empty, has eight elements, each reads back its text, and index 999 reads as empty text |
| ObjectTests.ArrayCaseValueOf | test/object.cpp:151-173 | the three stages from an empty array give exactly the eight values |
| ObjectTests.ArraySizeAsAsserted | test/object.cpp:176 | the array built has eight elements, not the nine the test expects |
| ObjectTests.Doc1WellFormed | test/object.cpp:194-195 | the test document's numbers are numerals |
| ObjectTests.WriteStrNul | test/object.cpp:195 | the string ending in NUL is written with \u0000 |
| ObjectTests.WriteDoc1 | test/object.cpp:213 | writing the test document gives exactly the test's text |
| ObjectTests.Doc1Shape | test/object.cpp:205-211 | the document is an array of two, the first element's text is "1.10000000", and the second is an object of three |
| ObjectTests.ReadPaddedCases | test/object.cpp:219-220 | "  {}\n  " and "  []\n  " read as the empty object and the empty array |
| ObjectTests.RejectAt | test/object.cpp:223 | "@{}" does not read |
| ObjectTests.RejectGarbage | test/object.cpp:224 | "{} garbage" does not read |
| ObjectTests.RejectArrObj | test/object.cpp:225 | "[]{}" does not read |
| ObjectTests.RejectObjArr | test/object.cpp:226 | "{}[]" does not read |
| ObjectTests.RejectNumber | test/object.cpp:227 | "{} 42" does not read |
| ObjectTests.ReadWriteCase | test/object.cpp:197-228 | every expectation of the read/write test: both reads of the document succeed, its shape, the exact written text, the padded reads, and all five rejections |

## Left out

- RLP (recursive length prefix) encoding, which the repository's name
  suggests. No code for it is part of this model.
- The implementation sources (`rlpvalue.h` and the rest) are not part of
  this model. Where the test does not settle a behaviour, the model makes its
  own choice, and each such choice is listed below.
- The macros standing in for Boost.Test, and `main`, in the test file. The test's
  assertions are the postconditions of the scenario methods.
- Exceptions. A throwing accessor is modelled as an error result
  (`TypeMismatch` or `OutOfRange`).
- Floating point (`get_real`). Numbers stay text throughout. The integer
  accessors read the digits into an unbounded integer and then check the
  range.
- Lookup of object members by key, the key-indexing operator, and the
  policy for duplicate keys. The test does not exercise them. An object is
  an ordered list of members, and duplicates may coexist.
- Pretty-printing and indentation. Only the compact writer is modelled.
- Text is a sequence of Unicode characters, not UTF-8 bytes. `\uXXXX`
  escapes decode to characters, surrogate pairs are combined, and lone
  surrogates are refused.
- A nesting-depth limit. The reader recurses without a bound.
- Numerals.ValidNumStr: numerals follow section 6 of RFC 8259, by the
  model's choice. A leading `+` and leading zeros (`01`) are refused. The
  test exercises neither.
- Container.RLPValue.Read: a failed read leaves null, by the model's choice.
  The test checks only the result of a failed read, not the value left
  behind.
- Container.RLPValue.OfType: a number kind must be given a numeral, because
  the constructor performs no check. A boolean kind starts as false.
- Accessors.GetInt64: a numeral with a fraction or an exponent is reported
  as `OutOfRange`, the same error as an integer outside the width, by the
  model's choice. The test expects one `runtime_error` for both kinds of
  failure (lines 89 and 96). Accessors.NonIntegerNumeral states this case.
- Accessors.GetInt: the same as Accessors.GetInt64.
- JsonValue.ValStr: the text of a boolean is the empty text, by the model's
  choice. The test never reads the text of a boolean.
- Container.RLPValue.PushBack: on a null receiver it succeeds and the
  receiver becomes a one-element array, by the model's choice. The test
  appends only to a value constructed as an array.
- Container.RLPValue.PushBackV: on a null receiver it succeeds and the
  receiver becomes an array of the given values, by the same choice.
- Container.RLPValue.PushBackV: modelled as one append of the whole
  sequence, not element by element. The result is the same, because no
  element can fail on its own.
- `setBool`, `setObject`, `get_bool` and `get_obj` are modelled
  (`SetBool`, `SetObject`, `GetBool`, `GetObj`) but have no row, because the
  test does not call them.

## Findings

| source | as written | input that shows it | evidently intended | confidence | as-written member | corrected member |
|---|---|---|---|---|---|---|
| test/object.cpp:176 | the array test expects `arr.size() == 9` | the test's own appends at lines 153-173: 1 + 1 + 1 + 2 + 1 + 1 + 1 = 8 values | size 8. The index checks at lines 178-185 stop at `arr[7]`, the last of eight elements | not executed | ObjectTests.ArraySizeAsAsserted | ObjectTests.ArrayCase |
