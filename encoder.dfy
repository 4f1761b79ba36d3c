/** The encoder object of encode.go: a buffer that only grows, the copied
    options and the current indent (encode.go:38-42), with the methods that
    append to the buffer step by step, and the entry points. */
module Encoder {
  import opened Wrappers
  import opened Text
  import opened CharClass
  import opened Escape
  import opened Values
  import opened Layout

  class HjsonEncoder {
    /** The `bytes.Buffer` the encoder writes to. */
    var out: string
    var indent: nat
    const opts: EncoderOptions
    /** `startsWithNumber`, which is defined outside encode.go: the encoder
        only asks it whether a string would read back as a number. */
    const isNum: string -> bool

    /** The encoder `MarshalWithOptions` builds (encode.go:317-323): an empty
        buffer, indent zero, and five of the caller's options. */
    constructor (options: EncoderOptions, isNum: string -> bool)
      ensures opts == CopiedOptions(options) && this.isNum == isNum
      ensures out == [] && indent == 0
    {
      out := [];
      indent := 0;
      opts := EncoderOptions(options.eol, options.bracesSameLine, options.emitRootBraces,
                             options.quoteAlways, options.indentBy, false, false);
      this.isNum := isNum;
    }

    /** `bytes.Buffer.WriteString`. */
    method WriteString(s: string)
      modifies this`out
      ensures out == old(out) + s
    {
      out := out + s;
    }

    /** `writeIndent` (encode.go:172-177). */
    method WriteIndent(n: nat)
      modifies this`out
      ensures out == old(out) + IndentText(opts, n)
    {
      WriteString(opts.eol);
      ghost var base := out;
      var i := 0;
      while i < n
        invariant 0 <= i <= n
        invariant out == base + Repeat(opts.indentBy, i)
      {
        WriteString(opts.indentBy);
        Assoc(base, Repeat(opts.indentBy, i), opts.indentBy);
        i := i + 1;
      }
      Assoc(old(out), opts.eol, Repeat(opts.indentBy, n));
    }

    /** `mlString` (encode.go:119-142). */
    method MlString(value: string, sep: string)
      modifies this`out
      ensures out == old(out) + MlText(opts, indent, value, sep)
    {
      var a := SplitLines(RemoveCR(value));
      ghost var o := out;
      if |a| == 1 {
        WriteString(sep + "'''");
        WriteString(a[0]);
        Assoc(o, sep + "'''", a[0]);
        WriteString("'''");
        Assoc(o, sep + "'''" + a[0], "'''");
      } else {
        ghost var i1 := IndentText(opts, indent + 1);
        ghost var h := i1 + "'''";
        WriteIndent(indent + 1);
        WriteString("'''");
        Assoc(o, i1, "'''");
        WriteLines(a);
        ghost var body := MlLinesText(opts, indent, a);
        WriteIndent(indent + 1);
        Assoc(o, h, body);
        Assoc(o, h + body, i1);
        WriteString("'''");
        Assoc(o, h + body + i1, "'''");
      }
    }

    /** The loop of `mlString` (encode.go:133-138): each line on a line of
        its own, indented one level deeper, an empty line left unindented. */
    method WriteLines(a: seq<string>)
      modifies this`out
      ensures out == old(out) + MlLinesText(opts, indent, a)
    {
      var i := 0;
      while i < |a|
        invariant 0 <= i <= |a|
        invariant out == old(out) + MlLinesText(opts, indent, a[..i])
      {
        var v := a[i];
        ghost var done := MlLinesText(opts, indent, a[..i]);
        var lineIndent := indent + 1;
        if |v| == 0 { lineIndent := 0; }
        WriteIndent(lineIndent);
        Assoc(old(out), done, IndentText(opts, lineIndent));
        WriteString(v);
        Assoc(old(out), done + IndentText(opts, lineIndent), v);
        Assoc(done, IndentText(opts, lineIndent), v);
        assert a[..i + 1][..i] == a[..i];
        i := i + 1;
      }
      assert a[..i] == a;
    }

    /** `quote` (encode.go:88-117). */
    method Quote(value: string, sep: string, isRoot: bool)
      modifies this`out
      ensures out == old(out) + QuoteText(opts, isNum, value, sep, isRoot, indent)
    {
      if |value| == 0 {
        WriteString(sep + "\"\"");
      } else if opts.quoteAlways || NeedsQuotes(value) || NeedsQuotes2(value)
                || isNum(value) || StartsWithKeyword(value) {
        if !NeedsEscape(value) {
          WriteString(sep + "\"" + value + "\"");
        } else if !NeedsEscapeML(value) && !isRoot {
          MlString(value, sep);
        } else {
          WriteString(sep + "\"" + QuoteReplace(value) + "\"");
        }
      } else {
        WriteString(sep + value);
      }
    }

    /** `str` (encode.go:179-310). On success it appends `StrText` and leaves
        the indent as it found it; on failure it returns the same error
        (what it wrote before failing is discarded by its caller). */
    method Str(v: Value, noIndent: bool, sep: string, isRoot: bool) returns (err: Option<string>)
      modifies this
      decreases v, 3
      ensures var r := ValueText(opts, isNum, v, noIndent, sep, isRoot, old(indent));
              (r.Ok? ==> err == None && out == old(out) + r.value && indent == old(indent))
              && (r.Err? ==> err == Some(r.error))
    {
      ghost var o := out;
      match v {
        case Null =>
          WriteString(sep);
          WriteString("null");
          Assoc(o, sep, "null");
          return None;
        case String(s) =>
          Quote(s, sep, isRoot);
          return None;
        case Int(i) =>
          WriteString(sep);
          WriteString(IntToDecimal(i as int));
          Assoc(o, sep, IntToDecimal(i as int));
          return None;
        case Float(f) =>
          WriteString(sep);
          match f {
            case NaN => WriteString("null");
            case Inf(_) => WriteString("null");
            case Finite(isZero, fixed, exponent) =>
              if !opts.allowMinusZero && isZero {
                WriteString("0");
              } else {
                var val := fixed;
                if |exponent| < |fixed| { val := AsciiLower(exponent); }
                WriteString(val);
              }
          }
          Assoc(o, sep, FloatText(opts, f));
          return None;
        case Bool(b) =>
          WriteString(sep);
          if b { WriteString("true"); } else { WriteString("false"); }
          Assoc(o, sep, if b then "true" else "false");
          return None;
        case Sequence(items) =>
          if |items| == 0 {
            WriteString(sep);
            WriteString("[]");
            Assoc(o, sep, "[]");
            return None;
          }
          err := StrSequence(v, noIndent, sep);
        case Mapping(entries) =>
          if |entries| == 0 {
            WriteString(sep);
            WriteString("{}");
            Assoc(o, sep, "{}");
            return None;
          }
          err := StrMapping(v, noIndent, sep, isRoot);
        case Unknown(t) =>
          if opts.unknownAsNull {
            WriteString("null");
            return None;
          }
          return Some("Unsupported type " + t);
      }
    }

    /** The slice branch of `str` (encode.go:231-259) for a non-empty slice. */
    method StrSequence(v: Value, noIndent: bool, sep: string) returns (err: Option<string>)
      requires v.Sequence? && |v.items| > 0
      modifies this
      decreases v, 2
      ensures var r := SequenceText(opts, isNum, v, noIndent, sep, old(indent));
              (r.Ok? ==> err == None && out == old(out) + r.value && indent == old(indent))
              && (r.Err? ==> err == Some(r.error))
    {
      ghost var o := out;
      var indent1 := indent;
      indent := indent + 1;
      if !noIndent && !opts.bracesSameLine {
        WriteIndent(indent1);
      } else {
        WriteString(sep);
      }
      WriteString("[");
      err := WriteItems(v);
      if err.Some? {
        return;
      }
      WriteIndent(indent1);
      WriteString("]");
      SequenceDone(opts, isNum, v, noIndent, sep, indent1, o, out);
      indent := indent1;
      return None;
    }

    /** The loop of the slice branch (encode.go:250-254): each element on a
        new line at the current indent, stopping at the first error. */
    method WriteItems(v: Value) returns (err: Option<string>)
      requires v.Sequence?
      modifies this
      decreases v, 1
      ensures var r := ItemsText(opts, isNum, v, |v.items|, old(indent));
              (r.Ok? ==> err == None && out == old(out) + r.value && indent == old(indent))
              && (r.Err? ==> err == Some(r.error))
    {
      var i := 0;
      while i < |v.items|
        invariant 0 <= i <= |v.items|
        invariant indent == old(indent)
        invariant ItemsText(opts, isNum, v, i, old(indent)).Ok?
        invariant out == old(out) + ItemsText(opts, isNum, v, i, old(indent)).value
      {
        ghost var before := out;
        var e := WriteItem(v, i);
        if e.Some? {
          ItemErrorStep(opts, isNum, v, i, old(indent));
          ItemsErrorPersists(opts, isNum, v, i + 1, |v.items|, old(indent));
          return e;
        }
        ItemsStep(opts, isNum, v, i, old(indent), old(out), before, out);
        i := i + 1;
      }
      return None;
    }

    /** One turn of that loop: a new line, then the `i`-th element. */
    method WriteItem(v: Value, i: nat) returns (err: Option<string>)
      requires v.Sequence? && i < |v.items|
      modifies this
      decreases v, 0
      ensures var r := ValueText(opts, isNum, v.items[i], true, "", false, old(indent));
              (r.Ok? ==> err == None && out == old(out) + IndentText(opts, old(indent)) + r.value
                         && indent == old(indent))
              && (r.Err? ==> err == Some(r.error))
    {
      WriteIndent(indent);
      err := Str(v.items[i], true, "", false);
    }

    /** The loop of the map branch (encode.go:283-292): the keys sorted, and
        each entry on a new line at the current indent, stopping at the
        first error. */
    method WriteEntries(v: Value) returns (err: Option<string>)
      requires v.Mapping?
      modifies this
      decreases v, 1
      ensures var r := EntriesText(opts, isNum, v, |v.entries|, old(indent));
              (r.Ok? ==> err == None && out == old(out) + r.value && indent == old(indent))
              && (r.Err? ==> err == Some(r.error))
    {
      var keys := SortedKeys(v.entries);
      var i := 0;
      while i < |v.entries|
        invariant 0 <= i <= |v.entries|
        invariant indent == old(indent)
        invariant EntriesText(opts, isNum, v, i, old(indent)).Ok?
        invariant out == old(out) + EntriesText(opts, isNum, v, i, old(indent)).value
      {
        ghost var before := out;
        var e := WriteEntry(v, keys[i]);
        if e.Some? {
          EntryErrorStep(opts, isNum, v, i, old(indent));
          EntriesErrorPersists(opts, isNum, v, i + 1, |v.entries|, old(indent));
          return e;
        }
        EntriesStep(opts, isNum, v, i, old(indent), old(out), before, out);
        i := i + 1;
      }
      return None;
    }

    /** One turn of that loop: a new line, the key as `quoteName` writes
        it, a colon, and the key's value after one space. */
    method WriteEntry(v: Value, key: string) returns (err: Option<string>)
      requires v.Mapping? && key in KeysOf(v.entries)
      modifies this
      decreases v, 0
      ensures var r := KeyEntryText(opts, isNum, v, key, old(indent));
              (r.Ok? ==> err == None && out == old(out) + r.value && indent == old(indent))
              && (r.Err? ==> err == Some(r.error))
    {
      ghost var o := out;
      var value := v.entries[FindKey(v.entries, key)].val;
      WriteIndent(indent);
      WriteString(QuoteName(key));
      WriteString(":");
      err := Str(value, false, " ", false);
      if err.None? {
        ghost var t := ValueText(opts, isNum, value, false, " ", false, indent);
        ghost var ind := IndentText(opts, indent);
        Assoc(o, ind, QuoteName(key));
        Assoc(o, ind + QuoteName(key), ":");
        Assoc(o, ind + QuoteName(key) + ":", t.value);
      }
    }

    /** The map branch of `str` (encode.go:261-299) for a non-empty map. */
    method StrMapping(v: Value, noIndent: bool, sep: string, isRoot: bool) returns (err: Option<string>)
      requires v.Mapping? && |v.entries| > 0
      modifies this
      decreases v, 2
      ensures var r := MappingText(opts, isNum, v, noIndent, sep, isRoot, old(indent));
              (r.Ok? ==> err == None && out == old(out) + r.value && indent == old(indent))
              && (r.Err? ==> err == Some(r.error))
    {
      ghost var o := out;
      var showBraces := !isRoot || opts.emitRootBraces;
      var indent1 := indent;
      indent := indent + 1;
      if showBraces {
        if !noIndent && !opts.bracesSameLine {
          WriteIndent(indent1);
        } else {
          WriteString(sep);
        }
        WriteString("{");
      }
      err := WriteEntries(v);
      if err.Some? {
        return;
      }
      if showBraces {
        WriteIndent(indent1);
        WriteString("}");
      }
      MappingDone(opts, isNum, v, noIndent, sep, isRoot, indent1, o, out);
      indent := indent1;
      return None;
    }
  }

  /** A non-empty slice written as `str` writes it, piece by piece, is its
      `SequenceText`. */
  lemma SequenceDone(o: EncoderOptions, isNum: string -> bool, v: Value, noIndent: bool,
                     sep: string, indent: nat, base: string, after: string)
    requires v.Sequence? && ItemsText(o, isNum, v, |v.items|, indent + 1).Ok?
    requires after == base + OpenText(o, noIndent, sep, indent) + "["
                      + ItemsText(o, isNum, v, |v.items|, indent + 1).value
                      + IndentText(o, indent) + "]"
    ensures SequenceText(o, isNum, v, noIndent, sep, indent).Ok?
    ensures after == base + SequenceText(o, isNum, v, noIndent, sep, indent).value
  {
    var open := OpenText(o, noIndent, sep, indent);
    var body := ItemsText(o, isNum, v, |v.items|, indent + 1).value;
    var close := IndentText(o, indent);
    Assoc(base, open, "[");
    Assoc(base, open + "[", body);
    Assoc(base, open + "[" + body, close);
    Assoc(base, open + "[" + body + close, "]");
  }

  /** The same for a non-empty map, with or without its braces. */
  lemma MappingDone(o: EncoderOptions, isNum: string -> bool, v: Value, noIndent: bool,
                    sep: string, isRoot: bool, indent: nat, base: string, after: string)
    requires v.Mapping? && EntriesText(o, isNum, v, |v.entries|, indent + 1).Ok?
    requires !isRoot || o.emitRootBraces ==>
               after == base + OpenText(o, noIndent, sep, indent) + "{"
                        + EntriesText(o, isNum, v, |v.entries|, indent + 1).value
                        + IndentText(o, indent) + "}"
    requires isRoot && !o.emitRootBraces ==>
               after == base + EntriesText(o, isNum, v, |v.entries|, indent + 1).value
    ensures MappingText(o, isNum, v, noIndent, sep, isRoot, indent).Ok?
    ensures after == base + MappingText(o, isNum, v, noIndent, sep, isRoot, indent).value
  {
    var body := EntriesText(o, isNum, v, |v.entries|, indent + 1).value;
    if !isRoot || o.emitRootBraces {
      var open := OpenText(o, noIndent, sep, indent);
      var close := IndentText(o, indent);
      Assoc(base, open, "{");
      Assoc(base, open + "{", body);
      Assoc(base, open + "{" + body, close);
      Assoc(base, open + "{" + body + close, "}");
      Assoc(open + "{", body, close + "}");
      Assoc(base, open + "{" + body, close + "}");
    } else {
      assert body == "" + body + "";
    }
  }

  /** After one more element is written, the buffer holds one more
      element's text. */
  lemma ItemsStep(o: EncoderOptions, isNum: string -> bool, v: Value, i: nat, depth: nat,
                  base: string, before: string, after: string)
    requires v.Sequence? && i < |v.items| && ItemsText(o, isNum, v, i, depth).Ok?
    requires before == base + ItemsText(o, isNum, v, i, depth).value
    requires ValueText(o, isNum, v.items[i], true, "", false, depth).Ok?
    requires after == before + IndentText(o, depth) + ValueText(o, isNum, v.items[i], true, "", false, depth).value
    ensures ItemsText(o, isNum, v, i + 1, depth).Ok?
    ensures after == base + ItemsText(o, isNum, v, i + 1, depth).value
  {
    var t := ValueText(o, isNum, v.items[i], true, "", false, depth).value;
    Assoc(base, ItemsText(o, isNum, v, i, depth).value, IndentText(o, depth));
    Assoc(base, ItemsText(o, isNum, v, i, depth).value + IndentText(o, depth), t);
  }

  /** If the `i`-th element fails, the first `i + 1` elements fail with its
      error. */
  lemma ItemErrorStep(o: EncoderOptions, isNum: string -> bool, v: Value, i: nat, depth: nat)
    requires v.Sequence? && i < |v.items| && ItemsText(o, isNum, v, i, depth).Ok?
    requires ValueText(o, isNum, v.items[i], true, "", false, depth).Err?
    ensures ItemsText(o, isNum, v, i + 1, depth)
            == Err(ValueText(o, isNum, v.items[i], true, "", false, depth).error)
  {
  }

  /** After one more entry is written, the buffer holds one more entry's
      text. */
  lemma EntriesStep(o: EncoderOptions, isNum: string -> bool, v: Value, i: nat, depth: nat,
                    base: string, before: string, after: string)
    requires v.Mapping? && i < |v.entries| && EntriesText(o, isNum, v, i, depth).Ok?
    requires before == base + EntriesText(o, isNum, v, i, depth).value
    requires KeyEntryText(o, isNum, v, SortedKeys(v.entries)[i], depth).Ok?
    requires after == before + KeyEntryText(o, isNum, v, SortedKeys(v.entries)[i], depth).value
    ensures EntriesText(o, isNum, v, i + 1, depth).Ok?
    ensures after == base + EntriesText(o, isNum, v, i + 1, depth).value
  {
    assert EntryText(o, isNum, v, i, depth) == KeyEntryText(o, isNum, v, SortedKeys(v.entries)[i], depth);
    Assoc(base, EntriesText(o, isNum, v, i, depth).value, EntryText(o, isNum, v, i, depth).value);
  }

  /** If the `i`-th entry fails, the first `i + 1` entries fail with its
      error. */
  lemma EntryErrorStep(o: EncoderOptions, isNum: string -> bool, v: Value, i: nat, depth: nat)
    requires v.Mapping? && i < |v.entries| && EntriesText(o, isNum, v, i, depth).Ok?
    requires KeyEntryText(o, isNum, v, SortedKeys(v.entries)[i], depth).Err?
    ensures EntriesText(o, isNum, v, i + 1, depth)
            == Err(KeyEntryText(o, isNum, v, SortedKeys(v.entries)[i], depth).error)
  {
    assert EntryText(o, isNum, v, i, depth) == KeyEntryText(o, isNum, v, SortedKeys(v.entries)[i], depth);
  }

  /** Once a prefix of the elements fails, every longer prefix fails with
      the same error: `str` stops at the first failing element. */
  lemma {:induction false} ItemsErrorPersists(o: EncoderOptions, isNum: string -> bool, v: Value,
                                              i: nat, n: nat, depth: nat)
    requires v.Sequence? && i <= n <= |v.items|
    requires ItemsText(o, isNum, v, i, depth).Err?
    ensures ItemsText(o, isNum, v, n, depth) == ItemsText(o, isNum, v, i, depth)
    decreases n - i
  {
    if i < n {
      ItemsErrorPersists(o, isNum, v, i, n - 1, depth);
    }
  }

  /** The same for the entries of a map. */
  lemma {:induction false} EntriesErrorPersists(o: EncoderOptions, isNum: string -> bool, v: Value,
                                                i: nat, n: nat, depth: nat)
    requires v.Mapping? && i <= n <= |v.entries|
    requires EntriesText(o, isNum, v, i, depth).Err?
    ensures EntriesText(o, isNum, v, n, depth) == EntriesText(o, isNum, v, i, depth)
    decreases n - i
  {
    if i < n {
      EntriesErrorPersists(o, isNum, v, i, n - 1, depth);
    }
  }

  /** `MarshalWithOptions` (encode.go:316-330). `isNum` stands for
      `startsWithNumber`. */
  method MarshalWithOptions(v: Value, options: EncoderOptions, isNum: string -> bool)
    returns (r: Result<string>)
    ensures r == MarshalText(v, options, isNum)
  {
    var e := new HjsonEncoder(options, isNum);
    assert e.opts == CopiedOptions(options) && e.indent == 0 && e.out == [];
    ghost var t := ValueText(e.opts, e.isNum, v, true, "", true, 0);
    var err := e.Str(v, true, "", true);
    if err.Some? {
      return Err(err.value);
    }
    assert e.out == [] + t.value == t.value;
    return Ok(e.out);
  }

  /** `Marshal` (encode.go:312-314): the default options. */
  method Marshal(v: Value, isNum: string -> bool) returns (r: Result<string>)
    ensures r == MarshalText(v, DefaultOptions(), isNum)
  {
    r := MarshalWithOptions(v, DefaultOptions(), isNum);
  }
}
