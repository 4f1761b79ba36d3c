/** The text the encoder appends, as functions of its input, its options and
    its current indent. The methods of `Encoder.HjsonEncoder` are proved to
    append exactly this text; the lemmas in `Properties` say what it means. */
module Layout {
  import opened Wrappers
  import opened Text
  import opened CharClass
  import opened Escape
  import opened Values

  /** What `writeIndent(n)` appends: the line ending, then `n` indent units. */
  function IndentText(o: EncoderOptions, n: nat): string {
    o.eol + Repeat(o.indentBy, n)
  }

  /** One line of a multiline block: an empty line gets the bare line
      ending, any other line is indented one level deeper than the
      encoder's current indent. */
  function LineText(o: EncoderOptions, indent: nat, line: string): string {
    IndentText(o, if |line| == 0 then 0 else indent + 1) + line
  }

  /** The lines of a multiline block, in order. */
  function MlLinesText(o: EncoderOptions, indent: nat, lines: seq<string>): string
    decreases |lines|
  {
    if lines == [] then ""
    else MlLinesText(o, indent, lines[..|lines| - 1]) + LineText(o, indent, lines[|lines| - 1])
  }

  /** What `mlString` appends: carriage returns are removed and the value is
      split on newlines. One line stays on the current line between `'''`
      delimiters; several lines become an indented block whose opening and
      closing `'''` stand on lines of their own. The block form does not
      write the separator. */
  function MlText(o: EncoderOptions, indent: nat, value: string, sep: string): string {
    var a := SplitLines(RemoveCR(value));
    if |a| == 1 then sep + "'''" + a[0] + "'''"
    else IndentText(o, indent + 1) + "'''" + MlLinesText(o, indent, a) + IndentText(o, indent + 1) + "'''"
  }

  /** The condition of encode.go:95-98: the bare form is not allowed. */
  predicate NeedsQuoting(o: EncoderOptions, isNum: string -> bool, value: string) {
    o.quoteAlways || NeedsQuotes(value) || NeedsQuotes2(value) || isNum(value)
    || StartsWithKeyword(value)
  }

  /** `quote` chooses the multiline form (encode.go:108-109). */
  predicate UsesMultiline(o: EncoderOptions, isNum: string -> bool, value: string, isRoot: bool) {
    |value| > 0 && NeedsQuoting(o, isNum, value) && NeedsEscape(value)
    && !NeedsEscapeML(value) && !isRoot
  }

  /** What `quote` appends for a string value. */
  function QuoteText(o: EncoderOptions, isNum: string -> bool, value: string, sep: string,
                     isRoot: bool, indent: nat): string
  {
    if |value| == 0 then sep + "\"\""
    else if NeedsQuoting(o, isNum, value) then
      if !NeedsEscape(value) then sep + "\"" + value + "\""
      else if !NeedsEscapeML(value) && !isRoot then MlText(o, indent, value, sep)
      else sep + "\"" + QuoteReplace(value) + "\""
    else sep + value
  }

  /** `quoteName` (encode.go:144-158): the text of a map key. */
  function QuoteName(name: string): string {
    if |name| == 0 then "\"\""
    else if NeedsEscapeName(name) then
      "\"" + (if NeedsEscape(name) then QuoteReplace(name) else name) + "\""
    else name
  }

  /** The float branch of `str` (encode.go:207-221), after the separator:
      `null` for a number that is not finite, `0` for a zero unless minus
      zero is allowed, and otherwise the shorter of the two texts, the
      exponent form only when it is strictly shorter and then lower-cased. */
  function FloatText(o: EncoderOptions, f: FloatNum): (r: string)
    ensures !f.Finite? ==> r == "null"
    ensures f.Finite? && f.isZero && !o.allowMinusZero ==> r == "0"
    ensures f.Finite? && !(f.isZero && !o.allowMinusZero) ==>
              |r| <= |f.fixed| && |r| <= |f.exponent|
              && (r == f.fixed || r == AsciiLower(f.exponent))
              && (|r| < |f.fixed| ==> r == AsciiLower(f.exponent))
  {
    match f
    case NaN => "null"
    case Inf(_) => "null"
    case Finite(isZero, fixed, exponent) =>
      if !o.allowMinusZero && isZero then "0"
      else if |exponent| < |fixed| then AsciiLower(exponent) else fixed
  }

  /** What a non-empty container writes before its opening delimiter: a new
      line at the container's own indent, or the separator when it is
      asked to stay on the line (`noIndent`) or braces go on the same line. */
  function OpenText(o: EncoderOptions, noIndent: bool, sep: string, indent: nat): string {
    if !noIndent && !o.bracesSameLine then IndentText(o, indent) else sep
  }

  /** The keys of a map in the order `str` emits them (encode.go:283-284). */
  function SortedKeys(entries: seq<Entry>): (ks: seq<string>)
    ensures |ks| == |entries|
    ensures forall i :: 0 <= i < |ks| ==> ks[i] in KeysOf(entries)
  {
    var ks := SortKeys(KeysOf(entries));
    SortKeysCorrect(KeysOf(entries));
    assert |ks| == |multiset(ks)| == |multiset(KeysOf(entries))| == |entries|;
    forall i | 0 <= i < |ks| ensures ks[i] in KeysOf(entries) {
      assert ks[i] in multiset(ks);
    }
    ks
  }

  /** What `str(value, noIndent, separator, isRootObject)` appends, starting
      at indent `indent`, or the error it returns. The containers' elements
      are encoded by this function too; its cases are spelled out in
      `StrText`. */
  function ValueText(o: EncoderOptions, isNum: string -> bool, v: Value, noIndent: bool,
                     sep: string, isRoot: bool, indent: nat): Result<string>
    decreases v, 2
  {
    StrText(o, isNum, v, noIndent, sep, isRoot, indent)
  }

  /** The case analysis of `str` on the kind of the value. */
  function StrText(o: EncoderOptions, isNum: string -> bool, v: Value, noIndent: bool,
                   sep: string, isRoot: bool, indent: nat): Result<string>
    decreases v, 1, 1
  {
    match v
    case Null => Ok(sep + "null")
    case String(s) => Ok(QuoteText(o, isNum, s, sep, isRoot, indent))
    case Int(i) => Ok(sep + IntToDecimal(i as int))
    case Float(f) => Ok(sep + FloatText(o, f))
    case Bool(b) => Ok(sep + (if b then "true" else "false"))
    case Sequence(items) =>
      if |items| == 0 then Ok(sep + "[]") else SequenceText(o, isNum, v, noIndent, sep, indent)
    case Mapping(entries) =>
      if |entries| == 0 then Ok(sep + "{}") else MappingText(o, isNum, v, noIndent, sep, isRoot, indent)
    case Unknown(t) =>
      if o.unknownAsNull then Ok("null") else Err("Unsupported type " + t)
  }

  /** A non-empty slice: the opening bracket, each element on a line of its
      own one level deeper, and the closing bracket on a new line at the
      slice's own indent. */
  function SequenceText(o: EncoderOptions, isNum: string -> bool, v: Value, noIndent: bool,
                        sep: string, indent: nat): Result<string>
    requires v.Sequence?
    decreases v, 1, 0
  {
    match ItemsText(o, isNum, v, |v.items|, indent + 1)
    case Err(m) => Err(m)
    case Ok(body) => Ok(OpenText(o, noIndent, sep, indent) + "[" + body + IndentText(o, indent) + "]")
  }

  /** A non-empty map: the same layout with braces, except that a root map
      leaves the braces out unless `emitRootBraces` is set. */
  function MappingText(o: EncoderOptions, isNum: string -> bool, v: Value, noIndent: bool,
                       sep: string, isRoot: bool, indent: nat): Result<string>
    requires v.Mapping?
    decreases v, 1, 0
  {
    var showBraces := !isRoot || o.emitRootBraces;
    match EntriesText(o, isNum, v, |v.entries|, indent + 1)
    case Err(m) => Err(m)
    case Ok(body) =>
      Ok((if showBraces then OpenText(o, noIndent, sep, indent) + "{" else "")
         + body
         + (if showBraces then IndentText(o, indent) + "}" else ""))
  }

  /** The first `n` elements of a sequence, each on its own line at `depth`. */
  function ItemsText(o: EncoderOptions, isNum: string -> bool, v: Value, n: nat, depth: nat): Result<string>
    requires v.Sequence? && n <= |v.items|
    decreases v, 0, n
  {
    if n == 0 then Ok("")
    else
      match ItemsText(o, isNum, v, n - 1, depth)
      case Err(m) => Err(m)
      case Ok(prefix) =>
        match ValueText(o, isNum, v.items[n - 1], true, "", false, depth)
        case Err(m) => Err(m)
        case Ok(t) => Ok(prefix + IndentText(o, depth) + t)
  }

  /** The first `n` entries of a map in sorted key order, each on its own
      line at `depth`. */
  function EntriesText(o: EncoderOptions, isNum: string -> bool, v: Value, n: nat, depth: nat): Result<string>
    requires v.Mapping? && n <= |v.entries|
    decreases v, 0, n, 2
  {
    if n == 0 then Ok("")
    else
      match EntriesText(o, isNum, v, n - 1, depth)
      case Err(m) => Err(m)
      case Ok(prefix) =>
        match EntryText(o, isNum, v, n - 1, depth)
        case Err(m) => Err(m)
        case Ok(t) => Ok(prefix + t)
  }

  /** The entry with the `i`-th key in sorted order. */
  function EntryText(o: EncoderOptions, isNum: string -> bool, v: Value, i: nat, depth: nat): Result<string>
    requires v.Mapping? && i < |v.entries|
    decreases v, 0, i, 1
  {
    KeyEntryText(o, isNum, v, SortedKeys(v.entries)[i], depth)
  }

  /** The entry with key `k` (`value.MapIndex(k)`), on a new line at
      `depth`: the key as `quoteName` writes it, a colon, and the value
      after one space. */
  function KeyEntryText(o: EncoderOptions, isNum: string -> bool, v: Value, k: string, depth: nat): Result<string>
    requires v.Mapping? && k in KeysOf(v.entries)
    decreases v, 0, 0, 0
  {
    match ValueText(o, isNum, v.entries[FindKey(v.entries, k)].val, false, " ", false, depth)
    case Err(m) => Err(m)
    case Ok(t) => Ok(IndentText(o, depth) + QuoteName(k) + ":" + t)
  }

  /** The options `MarshalWithOptions` hands to the encoder: it copies five
      of them (encode.go:319-323); minus zero and unknown-as-null stay off. */
  function CopiedOptions(options: EncoderOptions): (o: EncoderOptions)
    ensures o.eol == options.eol && o.bracesSameLine == options.bracesSameLine
    ensures o.emitRootBraces == options.emitRootBraces && o.quoteAlways == options.quoteAlways
    ensures o.indentBy == options.indentBy
    ensures !o.allowMinusZero && !o.unknownAsNull
  {
    EncoderOptions(options.eol, options.bracesSameLine, options.emitRootBraces,
                   options.quoteAlways, options.indentBy, false, false)
  }

  /** The result of `MarshalWithOptions(v, options)`: the root value encoded
      at indent zero, on the current line, with an empty separator. */
  function MarshalText(v: Value, options: EncoderOptions, isNum: string -> bool): Result<string> {
    ValueText(CopiedOptions(options), isNum, v, true, "", true, 0)
  }
}
