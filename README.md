# Hjson encoder model

A Dafny model of the Hjson encoder of hjson-go (`encode.go`). The encoder
turns a value tree into Hjson text. The tree is made of nulls, booleans,
integers, floats, strings, sequences and string-keyed maps. The model
covers:

- how each string is chosen to be bare, quoted, multiline or escaped;
- how map keys are quoted;
- the escape table;
- the `'''` multiline layout;
- indentation;
- brace placement and root-brace suppression;
- sorted key order;
- the error for values of unknown kind;
- the options that `MarshalWithOptions` copies.

Modules:

- `Wrappers`: `Option` and `Result`.
- `Text`: string helpers:
  - prefixes and occurrence;
  - repetition;
  - carriage-return removal;
  - splitting and joining on newline;
  - the byte-wise key order with insertion sort;
  - ASCII lower-casing;
  - base-10 integer text.
- `CharClass`: the six compiled regular expressions, each written as the
  predicate over strings that it denotes.
- `Escape`: `meta` and `quoteReplace`, plus a reference `Unescape` reader
  used to state read-back properties.
- `Values`: the value tree, map entries, `EncoderOptions` and
  `DefaultOptions`.
- `Layout`: the text the encoder appends, as functions of the value, the
  options and the current indent. `ValueText` is `str`.
- `Encoder`: class `HjsonEncoder`, which stands for `hjsonEncoder`:
  - an `out` buffer and an `indent` field that the methods update in place;
  - the methods `WriteIndent`, `MlString`, `Quote` and `Str` (with one
    method per container kind and per loop turn);
  - `MarshalWithOptions` and `Marshal`.

  Every method is proved to append exactly the `Layout` text.
- `Properties`: what that text means:
  - which quoting tier is taken and when;
  - escaped and multiline text reads back;
  - keys are emitted in ascending order;
  - the output does not depend on the order in which maps, at any depth,
    hand over their entries;
  - when encoding fails;
  - the quirks of `MarshalWithOptions`.

`startsWithNumber` is not defined in `encode.go`. The model passes it in
as a parameter `isNum: string -> bool`, and every property holds for every
such predicate. A map is a sequence of entries. Lemmas that need a Go map's
distinct keys require `DistinctKeys` or `WellFormed`.

Quirks of `encode.go` that the model keeps:

- `MarshalWithOptions` copies only `Eol`, `BracesSameLine`,
  `EmitRootBraces`, `QuoteAlways` and `IndentBy`. `AllowMinusZero` and
  `UnknownAsNull` are therefore always off in the public entry point.
  A caller who sets `UnknownAsNull` still gets the unsupported-type error
  (`Properties.MarshalZeroAndUnknown`).
- Multiline text deletes carriage returns rather than turning them into
  newlines. A lone `\r` disappears, so the multiline form reads back as
  the value without its carriage returns, not as the value itself.
- The `\u` fallback formats the missing table entry, a nil byte slice, not
  the character. Every escape-worthy character outside the table
  therefore becomes the same text, and read-back holds only for strings
  whose escape-worthy characters are all in the table
  (`Escape.FallbackLosesCharacter`, `Escape.QuoteReplaceRoundTrip`).
- `UnknownAsNull` writes `null` without the separator. The multiline
  block form never writes the separator.

## Model

| member | source | states |
|---|---|---|
| `Values.DefaultOptions` | encode.go:26-36 | the default options: newline line ending, two-space indent, braces on a new line, root braces shown, no forced quoting, minus zero and unknown-as-null off |
| `Values.FindKey` | encode.go:291 | `MapIndex(k)` finds an entry whose key is `k`, for every key of the map |
| `Values.KeysOfIndex` | encode.go:283 | the key list `MapKeys` hands over has the `i`-th entry's key at position `i` |
| `Values.FindKeyFirst` | encode.go:291 | the entry found is the first with that key, so with distinct keys it is the only one |
| `Layout.SortedKeys` | encode.go:283-284 | the keys of a map after sorting: as many as there are entries, each one a key of the map |
| `Text.Less` | encode.go:168-170 | `a < b` on key strings: a proper prefix, or smaller at the first difference, as Go's byte-wise string order |
| `Text.SortKeys` | encode.go:284 | the keys sorted by inserting each one in turn |
| `Text.LessIrreflexive` | encode.go:168-170 | the key order never puts a key before itself |
| `Text.LessTransitive` | encode.go:168-170 | the key order is transitive |
| `Text.LessTotal` | encode.go:168-170 | any two different keys are ordered one way |
| `Text.LessAsymmetric` | encode.go:168-170 | never both `a < b` and `b < a` |
| `Text.InsertPermutation` | encode.go:284 | inserting a key adds exactly that key to the multiset |
| `Text.InsertSorted` | encode.go:284 | inserting into a sorted list keeps it sorted |
| `Text.InsertAscending` | encode.go:284 | inserting a new key into a strictly ascending list keeps it strictly ascending |
| `Text.SortKeysCorrect` | encode.go:284 | the sort yields a sorted permutation of its input |
| `Text.SortKeysAscending` | encode.go:284 | distinct keys come out strictly ascending |
| `Text.SortedHeadsEqual` | encode.go:284 | two sorted permutations of one multiset have the same first key |
| `Text.TailsSameMultiset` | encode.go:284 | removing equal first keys from equal multisets leaves equal multisets |
| `Text.SortedUnique` | encode.go:284 | a multiset has exactly one sorted order, so the emitted key order is determined by the keys alone |
| `Properties.EmittedKeyOrder` | encode.go:283-292 | with distinct keys the emitted key sequence is strictly ascending and holds exactly the map's keys |
| `Properties.SortedKeysCover` | encode.go:283-292 | every entry of the map is emitted at some sorted position |
| `Text.RepeatShape` | encode.go:174-176 | `n` indent units have `n` times the unit's length and no other characters |
| `Encoder.HjsonEncoder.constructor` | encode.go:316-324 | a fresh encoder holds the five copied options, an empty buffer and indent zero |
| `Encoder.HjsonEncoder.WriteString` | encode.go:39 | appends the string to the buffer and changes nothing else |
| `Encoder.HjsonEncoder.WriteIndent` | encode.go:172-177 | appends the line ending and exactly `n` copies of `IndentBy` |
| `Text.RemoveCR` | encode.go:122 | `strings.Replace(value, "\r", "", -1)`: the value with every carriage return deleted |
| `Text.RemoveCRCorrect` | encode.go:122 | removing carriage returns leaves no `\r`, leaves a string without one unchanged, and drops exactly the `\r` characters |
| `Text.SplitLines` | encode.go:122 | splitting on newline yields at least one line |
| `Text.SplitLinesCorrect` | encode.go:122 | the lines hold no newline, joined with newlines they give the input back, the input is one line exactly when it has no newline |
| `Text.JoinLinesSnoc` | encode.go:122 | joining one more line appends a newline and the line |
| `Text.SplitLinesPrefix` | encode.go:122 | a first line followed by a newline splits off as the first piece |
| `Text.SplitLinesSingle` | encode.go:122 | text without a newline is one line |
| `Text.SplitJoinLines` | encode.go:122 | splitting lines that were joined with newlines gives the lines back |
| `Encoder.HjsonEncoder.WriteLines` | encode.go:133-138 | the loop appends, for each line in order, an indent line one level deeper (or a bare line ending for an empty line) and the line |
| `Encoder.HjsonEncoder.MlString` | encode.go:119-142 | appends the `'''` form of the value without carriage returns: on the current line after the separator for one line, or as an indented block without the separator for several |
| `Properties.MlSingleLine` | encode.go:124-129 | a value with one line is written as separator, `'''`, the line and `'''` |
| `Properties.MlLinesJoin` | encode.go:133-138 | with a newline line ending the block's lines are the newline-joined list of indented lines |
| `Properties.PiecesNoNewline` | encode.go:133-138 | the indented lines of the block contain no newline when the indent unit has none |
| `Properties.DedentPieces` | encode.go:133-138 | stripping one level of indentation deeper than the encoder's indent from each block line gives the original lines back |
| `Properties.MlBlockReadBack` | encode.go:119-142 | with a newline line ending, reading the block back line by line and dedenting yields exactly the value's lines, and joining them gives the value without carriage returns |
| `Properties.MlBlockIgnoresSeparator` | encode.go:130-141 | the block form is the same whatever the separator |
| `CharClass.NeedsEscape` | encode.go:49 | some character is a backslash, a double quote or in the quote class (C0 and C1 controls, DEL, the soft hyphen and the listed format, separator and bidi code points) |
| `CharClass.NeedsQuotes` | encode.go:52 | some character is in the quote class |
| `CharClass.NeedsQuotes2` | encode.go:54 | the text starts with whitespace, `"`, `'''`, `#`, `/*`, `//`, `{` or `[`, or ends with whitespace |
| `CharClass.NeedsEscapeML` | encode.go:57 | `'''` occurs, or a character of the quote class other than newline and carriage return |
| `CharClass.StartsWithKeyword` | encode.go:60 | the whole text is `true`, `false` or `null`, then whitespace, then nothing or one of `,` `]` `}` `#` `//` `/*` followed by a rest without a newline |
| `CharClass.NeedsEscapeName` | encode.go:62 | some character is one of `,{[}]:#"` or whitespace, or `//`, `/*` or `'''` occurs |
| `CharClass.EscapeIsQuotesPlusDelimiters` | encode.go:49-52 | a string needs escaping exactly when it needs quotes or holds a backslash or a double quote |
| `CharClass.MultilineCharacters` | encode.go:57 | a string that `needsEscapeML` does not match holds no `'''`, and its only escape-worthy characters are backslash, double quote, newline and carriage return |
| `Escape.Meta` | encode.go:66-75 | the substitution table: backspace, tab, newline, form feed, carriage return, double quote and backslash map to their two-character escapes, every other byte to nothing |
| `Escape.FirstUtf8Byte` | encode.go:78-79 | the byte `meta` is looked up by is below 256, is the character itself for ASCII and at least 0xC2 otherwise |
| `Escape.InTableExactly` | encode.go:66-75 | the table holds exactly backspace, tab, newline, form feed, carriage return, double quote and backslash |
| `Escape.EscapeChar` | encode.go:78-84 | a character is left as it is exactly when it is not escape-worthy; an escape-worthy one becomes a backslash escape; the result never holds a quote-worthy character |
| `Escape.QuoteReplace` | encode.go:77-86 | text with nothing to escape is unchanged; the result holds no quote-worthy character and is no shorter than the input |
| `Escape.UnescapePlain` | encode.go:77-86 | text without escape-worthy characters reads back as itself |
| `Escape.EscapeCharRoundTrip` | encode.go:78-84 | a character that is not escape-worthy or is in the table reads back as itself before any following text |
| `Escape.TableOnlyCons` | encode.go:78-84 | a string whose escape-worthy characters are all in the table starts with such a character and continues with such a string |
| `Escape.QuoteReplaceRoundTrip` | encode.go:77-86 | escaping a string whose escape-worthy characters are all in the table reads back as that string |
| `Escape.FallbackAll` | encode.go:79-84 | every escape-worthy character outside the table becomes the fallback text, which differs from the character; so does a one-character string of it |
| `Escape.FallbackLosesCharacter` | encode.go:83 | an illustration: a soft hyphen, a line separator and a control character all escape to the same text |
| `Escape.QuoteReplaceAppend` | encode.go:77-86 | each match is replaced on its own: escaping a concatenation is concatenating the escaped parts |
| `Layout.QuoteText` | encode.go:88-117 | the text `quote` writes: separator and `""` when empty; otherwise, when quoting is needed, the value in double quotes if nothing needs escaping, the multiline form if `'''`-safe and not root, else the escaped value in double quotes; otherwise separator and the bare value |
| `Layout.MlText` | encode.go:119-142 | the text `mlString` writes for the value without carriage returns: one line on the separator's line between `'''`, several lines as an indented block |
| `Layout.QuoteName` | encode.go:144-158 | the text `quoteName` returns: `""` for an empty key, the key in double quotes (escaped if needed) when `needsEscapeName` matches, else the key itself |
| `Encoder.HjsonEncoder.Quote` | encode.go:88-117 | appends the text `quote` chooses for the value: empty, double-quoted, multiline, escaped or bare |
| `Properties.QuotedBody` | encode.go:106-112 | the text between the double quotes never holds a quote-worthy character |
| `Properties.QuotedBodyReadsBack` | encode.go:106-112 | that text reads back as the value when its escape-worthy characters are all in the table |
| `Properties.QuoteEmpty` | encode.go:93-94 | an empty value is written as separator and `""`, and an empty key as `""` |
| `Properties.QuoteTiers` | encode.go:93-116 | a value needing no quotes is written bare after the separator; a quoted value with nothing to escape is wrapped as it is; otherwise outside the multiline case it is wrapped escaped; the multiline form is taken only for a non-root value that needs escaping and holds no `'''`; the quoted text reads back |
| `Properties.QuoteNameForms` | encode.go:144-158 | a non-empty key needing no quotes is written as it is; otherwise it is wrapped in double quotes and escaped only if it needs escaping; the wrapped text reads back |
| `Layout.FloatText` | encode.go:207-221 | `null` for a number that is not finite; `0` for a zero unless minus zero is allowed; otherwise the shorter of the fixed and exponent texts, lower-cased when the exponent text is strictly shorter |
| `Text.AsciiLower` | encode.go:219 | lower-casing keeps the length, leaves no capital letter and changes nothing else |
| `Text.DigitChar` | encode.go:205 | a digit value becomes the digit character with that value |
| `Text.NatToDecimal` | encode.go:205 | the base-10 text of a natural number is a non-empty run of digits with no leading zero |
| `Text.IntToDecimal` | encode.go:205 | the base-10 text of an integer has a minus sign exactly when it is negative, and digits after it |
| `Text.DigitsValue` | encode.go:205 | the value of a run of digits is never negative |
| `Text.NatToDecimalRoundTrip` | encode.go:205 | the digits of a natural number read back as that number |
| `Text.IntToDecimalRoundTrip` | encode.go:205 | the base-10 text of an integer reads back as that integer |
| `Properties.IntReadsBack` | encode.go:201-205 | an integer is written as separator and its base-10 text, which reads back as the integer |
| `Layout.ValueText` | encode.go:179-310 | the text `str` appends, or its error |
| `Layout.StrText` | encode.go:183-307 | the branches of `str`: separator and `null`; `quote`; separator and base-10 text; separator and float text; separator and `true`/`false`; separator and `[]` or `{}` when empty, else the container layout; `null` or the unsupported-type error for other kinds |
| `Encoder.HjsonEncoder.Str` | encode.go:179-310 | appends exactly the text `str` produces for the value at the current indent and restores the indent, or returns the unsupported-type error |
| `Encoder.HjsonEncoder.StrSequence` | encode.go:231-259 | a non-empty slice: the opening line and bracket, every element, the closing line and bracket; the indent is restored |
| `Encoder.HjsonEncoder.WriteItems` | encode.go:250-254 | the loop writes every element in order, each on a new line one level deeper, and stops at the first failing element with its error |
| `Encoder.HjsonEncoder.WriteItem` | encode.go:252-253 | one element: a new line at the current indent, then the element with no separator |
| `Encoder.ItemsStep` | encode.go:251-254 | after one more element is written, the buffer holds the text of one more element |
| `Encoder.ItemErrorStep` | encode.go:253 | a failing element makes the slice fail with its error |
| `Encoder.ItemsErrorPersists` | encode.go:253 | once an element fails, the slice's error is that first error |
| `Encoder.SequenceDone` | encode.go:240-259 | the writes of the slice branch, in order, make exactly the slice's text |
| `Encoder.HjsonEncoder.StrMapping` | encode.go:261-299 | a non-empty map: braces when shown, every entry in sorted key order; the indent is restored |
| `Encoder.HjsonEncoder.WriteEntries` | encode.go:283-292 | the loop writes the entries in sorted key order and stops at the first failing value with its error |
| `Encoder.HjsonEncoder.WriteEntry` | encode.go:288-291 | one entry: a new line, the key as `quoteName` writes it, a colon, and the value after one space |
| `Encoder.EntriesStep` | encode.go:287-292 | after one more entry is written, the buffer holds the text of one more entry |
| `Encoder.EntryErrorStep` | encode.go:291 | a failing value makes the map fail with its error |
| `Encoder.EntriesErrorPersists` | encode.go:291 | once a value fails, the map's error is that first error |
| `Encoder.MappingDone` | encode.go:270-299 | the writes of the map branch, in order, make exactly the map's text, with or without braces |
| `Properties.EmptyContainers` | encode.go:233-238 | an empty sequence is written as separator and `[]`, an empty map as separator and `{}` |
| `Properties.UnknownAsNullDropsSeparator` | encode.go:301-304 | with unknown-as-null a value of unknown kind is written as `null` without its separator |
| `Properties.MapBraces` | encode.go:270-297 | a map's text is its entries between an opening line and brace and a closing line and brace, with no braces only for the root map when root braces are off |
| `Values.KeysOf` | encode.go:283 | a map hands over one key per entry |
| `Properties.KeysOfAppend` | encode.go:283 | the keys of two runs of entries are the keys of each in turn |
| `Properties.PermutedKeys` | encode.go:283 | the same entries in another order have the same multiset of keys |
| `Properties.PermutedLookup` | encode.go:291 | with distinct keys, looking a key up finds the same entry whatever the order of the entries |
| `Properties.SameUpToOrderReflexive` | encode.go:179-310 | every tree is the same as itself up to the order of map entries |
| `Properties.PermutedSameUpToOrder` | encode.go:283 | the entries of a Go map handed over in another order make a tree that is the same up to order |
| `Properties.SameKeysSorted` | encode.go:283-284 | maps with the same keys, in whatever order, have as many entries and the same sorted keys |
| `Properties.SameTextUpToOrder` | encode.go:179-310 | two trees that differ only in the order in which maps at any depth hand over their entries are written as the same text, or fail with the same error |
| `Properties.SameItemsText` | encode.go:250-254 | the elements of two such sequences have the same text |
| `Properties.SameEntriesText` | encode.go:286-292 | maps whose entries at each sorted position have the same text have the same text for their entries |
| `Properties.SameEntryText` | encode.go:288-291 | in two such maps the entry at each sorted position has the same text |
| `Properties.MapOrderIndependent` | encode.go:261-299 | a map with distinct keys has the same text whatever the order its entries are handed over in |
| `Properties.MarshalOrderIndependent` | encode.go:316-330 | `MarshalWithOptions` gives the same result for trees that differ only in the order of map entries at any depth |
| `Properties.ValueFailsIff` | encode.go:179-310 | without unknown-as-null, encoding fails exactly when some node of the tree is of unknown kind |
| `Properties.MappingFailsIff` | encode.go:261-299 | a non-empty map fails exactly when some value in it holds a node of unknown kind |
| `Properties.ItemsFailIff` | encode.go:250-254 | the first `n` elements fail exactly when one of them holds a node of unknown kind |
| `Properties.EntriesFailIff` | encode.go:286-292 | the first `n` sorted entries fail exactly when one of their values holds a node of unknown kind |
| `Properties.EntriesFailStep` | encode.go:291 | the first `n` sorted entries fail exactly when the first `n - 1` fail or the `n`-th value fails |
| `Properties.ValueNeverFails` | encode.go:301-304 | with unknown-as-null, encoding never fails |
| `Properties.ItemsNeverFail` | encode.go:250-254 | with unknown-as-null, the elements never fail |
| `Properties.EntriesNeverFail` | encode.go:286-292 | with unknown-as-null, the entries never fail |
| `Layout.CopiedOptions` | encode.go:319-323 | the encoder gets the line ending, brace placement, root braces, forced quoting and indent unit of the caller's options, and minus zero and unknown-as-null off |
| `Encoder.MarshalWithOptions` | encode.go:316-330 | the result is the root value encoded on the current line with no separator at indent zero under the copied options, or the error |
| `Encoder.Marshal` | encode.go:312-314 | the result is `MarshalWithOptions` with the default options |
| `Properties.MarshalIgnoresDroppedOptions` | encode.go:319-323 | the result does not depend on the caller's minus-zero and unknown-as-null settings |
| `Properties.MarshalZeroAndUnknown` | encode.go:213-214 | a zero float is always written as `0`, and a value of unknown kind is always an error, even when the caller asked for minus zero or unknown-as-null |
| `Properties.MarshalFailsIff` | encode.go:316-330 | for a tree whose maps have distinct keys, marshalling fails exactly when some node is of unknown kind |

## Left out

- Reflection (`Kind`, `Elem`, `IsNil`, `MapKeys`, `MapIndex`). The value is
  a Dafny datatype instead. `str` removes exactly one pointer or interface
  layer (encode.go:185-193): a nil one is `Null`, a non-nil one is the
  value it holds. A value still behind a pointer after that one step, such
  as a pointer stored in a slice or map of interfaces, falls to the
  default branch and is `Unknown` (its type name starting with `*`).
- `Marshal(nil)`. The zero `reflect.Value` reaches the default branch,
  and `value.Type()` panics there (encode.go:306). The panic is not
  modelled. A root `Null` stands for a typed nil pointer.
- Strings that are not valid UTF-8. Go strings are bytes, but a Dafny
  `string` holds only Unicode scalar values. The regular expressions would
  read each bad byte as U+FFFD, which lies in the quote class, and
  `quoteReplace` would write the fallback for it.
- Unsigned integer kinds routed through `value.Int()`. Integers are signed
  64-bit values written in base 10.
- Float formatting by `strconv.FormatFloat`. A float is given by whether it
  is finite, whether it is zero, and its two texts. Only the choice between
  those texts is modelled.
- `startsWithNumber`. It is not defined in `encode.go`, so it is a parameter.
- The regular-expression engine. Each pattern is the predicate it denotes.
- Maps with keys that are not strings, and `Value.String()` on them.
- `sort.Sort` on the key slice in place. Sorting is a pure insertion sort
  with the same order. The order is proved to be strict and total, so
  with distinct keys any correct sort gives the same sequence.
- `bytes.Buffer` internals. The buffer is a `seq<char>` field.
- `bytes.Buffer.Bytes` converting to bytes. The result is the text itself.
- Escape.QuoteReplace: the `\u` fallback is the fixed text `\u0000` for what
  `fmt` makes of a nil byte slice with `%04x`. The exact `fmt` padding is
  not modelled.
- Text.AsciiLower: lower-cases ASCII letters only. `strings.ToLower` is
  applied only to `strconv` exponent text, which is ASCII.
- Encoder.HjsonEncoder.Str: on error the contract says only which error is
  returned, not what the buffer and indent hold. Go leaves partial output
  there, and `MarshalWithOptions` discards it. The same holds for
  `StrSequence`, `StrMapping`, `WriteItems`, `WriteItem`, `WriteEntries`
  and `WriteEntry`.
- Concurrency and allocation. The encoder is used by one caller.
