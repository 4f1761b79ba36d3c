/** What the encoder's output means: the quoting tiers and how each reads
    back, the multiline block layout, the order and brace placement of maps,
    when encoding fails, and the options `MarshalWithOptions` drops. */
module Properties {
  import opened Wrappers
  import opened Text
  import opened CharClass
  import opened Escape
  import opened Values
  import opened Layout

  // ---------------------------------------------------------------------
  // Strings and keys

  /** What goes between the double quotes of a quoted string or key: the
      value itself, or its `quoteReplace` escape when it holds a character
      that needs escaping. */
  function QuotedBody(value: string): (r: string)
    ensures !NeedsQuotes(r)
  {
    if NeedsEscape(value) then QuoteReplace(value) else value
  }

  /** Reading the quoted body back gives the value, when every character
      that needed an escape is one of the seven the table knows. */
  lemma QuotedBodyReadsBack(value: string)
    requires TableOnly(value)
    ensures Unescape(QuotedBody(value)) == Some(value)
  {
    if NeedsEscape(value) {
      QuoteReplaceRoundTrip(value);
    } else {
      UnescapePlain(value);
    }
  }

  /** The empty string and the empty key are written as `""`. */
  lemma QuoteEmpty(o: EncoderOptions, isNum: string -> bool, sep: string, isRoot: bool, indent: nat)
    ensures QuoteText(o, isNum, "", sep, isRoot, indent) == sep + "\"\""
    ensures QuoteName("") == "\"\""
  {
  }

  /** The tiers of `quote` for a non-empty string: bare when nothing calls
      for quotes; otherwise double quotes around the value or its escape,
      which reads back as the value; and the multiline form only for a
      value that needs escaping, holds no `'''` and no character the block
      form cannot carry, and is not the root. */
  lemma QuoteTiers(o: EncoderOptions, isNum: string -> bool, value: string, sep: string,
                   isRoot: bool, indent: nat)
    requires |value| > 0
    ensures !NeedsQuoting(o, isNum, value) ==> QuoteText(o, isNum, value, sep, isRoot, indent) == sep + value
    ensures NeedsQuoting(o, isNum, value) && !NeedsEscape(value) ==>
              QuoteText(o, isNum, value, sep, isRoot, indent) == sep + "\"" + value + "\""
    ensures NeedsQuoting(o, isNum, value) && !UsesMultiline(o, isNum, value, isRoot) ==>
              QuoteText(o, isNum, value, sep, isRoot, indent) == sep + "\"" + QuotedBody(value) + "\""
    ensures UsesMultiline(o, isNum, value, isRoot) ==>
              QuoteText(o, isNum, value, sep, isRoot, indent) == MlText(o, indent, value, sep)
              && !Contains(value, "'''") && !isRoot && NeedsEscape(value)
    ensures TableOnly(value) ==> Unescape(QuotedBody(value)) == Some(value)
  {
    if TableOnly(value) {
      QuotedBodyReadsBack(value);
    }
  }

  /** `quoteName`: a non-empty key that `needsEscapeName` does not match is
      written as it is; any other key is double-quoted, its content escaped
      only when it needs escaping, and the quoted content reads back as the
      key. */
  lemma QuoteNameForms(name: string)
    ensures |name| > 0 && !NeedsEscapeName(name) ==> QuoteName(name) == name
    ensures |name| == 0 || NeedsEscapeName(name) ==> QuoteName(name) == "\"" + QuotedBody(name) + "\""
    ensures TableOnly(name) ==> Unescape(QuotedBody(name)) == Some(name)
  {
    if TableOnly(name) {
      QuotedBodyReadsBack(name);
    }
  }

  // ---------------------------------------------------------------------
  // Multiline strings

  /** A line of a block as it stands between two line endings. */
  function Piece(o: EncoderOptions, indent: nat, line: string): string {
    Repeat(o.indentBy, if |line| == 0 then 0 else indent + 1) + line
  }

  function Pieces(o: EncoderOptions, indent: nat, lines: seq<string>): (r: seq<string>)
    ensures |r| == |lines|
    decreases |lines|
  {
    if lines == [] then []
    else Pieces(o, indent, lines[..|lines| - 1]) + [Piece(o, indent, lines[|lines| - 1])]
  }

  /** A reader's removal of the block indentation from one line. */
  function Dedent(prefix: string, piece: string): string {
    if HasPrefix(piece, prefix) then piece[|prefix|..] else piece
  }

  function DedentAll(prefix: string, pieces: seq<string>): (r: seq<string>)
    ensures |r| == |pieces|
    decreases |pieces|
  {
    if pieces == [] then []
    else DedentAll(prefix, pieces[..|pieces| - 1]) + [Dedent(prefix, pieces[|pieces| - 1])]
  }

  /** With `"\n"` as the line ending, the lines of a block are its pieces
      joined by newlines, after an empty first piece. */
  lemma {:induction false} MlLinesJoin(o: EncoderOptions, indent: nat, lines: seq<string>)
    requires o.eol == "\n"
    ensures MlLinesText(o, indent, lines) == JoinLines([""] + Pieces(o, indent, lines))
    decreases |lines|
  {
    if lines != [] {
      var init := lines[..|lines| - 1];
      var last := lines[|lines| - 1];
      var k := if |last| == 0 then 0 else indent + 1;
      var done := MlLinesText(o, indent, init);
      MlLinesJoin(o, indent, init);
      JoinLinesSnoc([""] + Pieces(o, indent, init), Piece(o, indent, last));
      assert ([""] + Pieces(o, indent, init)) + [Piece(o, indent, last)] == [""] + Pieces(o, indent, lines);
      Assoc("\n", Repeat(o.indentBy, k), last);
      Assoc(done, "\n", Repeat(o.indentBy, k) + last);
    }
  }

  /** No piece holds a newline when neither the lines nor the indent unit do. */
  lemma {:induction false} PiecesNoNewline(o: EncoderOptions, indent: nat, lines: seq<string>)
    requires '\n' !in o.indentBy
    requires forall i :: 0 <= i < |lines| ==> '\n' !in lines[i]
    ensures forall i :: 0 <= i < |lines| ==> '\n' !in Pieces(o, indent, lines)[i]
    decreases |lines|
  {
    if lines != [] {
      var init := lines[..|lines| - 1];
      var last := lines[|lines| - 1];
      PiecesNoNewline(o, indent, init);
      RepeatShape(o.indentBy, if |last| == 0 then 0 else indent + 1);
      assert '\n' !in Piece(o, indent, last);
    }
  }

  /** Removing the block indentation from each piece gives back each line. */
  lemma {:induction false} DedentPieces(o: EncoderOptions, indent: nat, lines: seq<string>)
    ensures DedentAll(Repeat(o.indentBy, indent + 1), Pieces(o, indent, lines)) == lines
    decreases |lines|
  {
    if lines != [] {
      var init := lines[..|lines| - 1];
      var last := lines[|lines| - 1];
      var pre := Repeat(o.indentBy, indent + 1);
      var ps := Pieces(o, indent, lines);
      DedentPieces(o, indent, init);
      assert ps == Pieces(o, indent, init) + [Piece(o, indent, last)];
      assert ps[..|ps| - 1] == Pieces(o, indent, init);
      assert DedentAll(pre, ps) == DedentAll(pre, ps[..|ps| - 1]) + [Dedent(pre, ps[|ps| - 1])];
      if |last| > 0 {
        assert (pre + last)[..|pre|] == pre && (pre + last)[|pre|..] == last;
      }
      assert Dedent(pre, Piece(o, indent, last)) == last;
      assert lines == init + [last];
    }
  }

  /** A value without a newline, once its carriage returns are dropped,
      is written on the separator's line between `'''` delimiters. */
  lemma MlSingleLine(o: EncoderOptions, indent: nat, value: string, sep: string)
    requires '\n' !in RemoveCR(value)
    ensures MlText(o, indent, value, sep) == sep + "'''" + RemoveCR(value) + "'''"
  {
    SplitLinesCorrect(RemoveCR(value));
  }

  /** How a block reads back. With `"\n"` as the line ending and an indent
      unit without a newline, splitting the block body on newlines, dropping
      the empty first piece and removing `indent + 1` indent units from each
      line gives the lines of the value, and these joined by newlines are the
      value without its carriage returns. */
  lemma MlBlockReadBack(o: EncoderOptions, indent: nat, value: string)
    requires o.eol == "\n" && '\n' !in o.indentBy
    ensures var lines := SplitLines(RemoveCR(value));
            var read := DedentAll(Repeat(o.indentBy, indent + 1),
                                  SplitLines(MlLinesText(o, indent, lines))[1..]);
            read == lines && JoinLines(read) == RemoveCR(value)
  {
    var lines := SplitLines(RemoveCR(value));
    SplitLinesCorrect(RemoveCR(value));
    var ps := Pieces(o, indent, lines);
    MlLinesJoin(o, indent, lines);
    PiecesNoNewline(o, indent, lines);
    NoNewlineCons(ps);
    SplitJoinLines([""] + ps);
    assert ([""] + ps)[1..] == ps;
    DedentPieces(o, indent, lines);
  }

  lemma NoNewlineCons(ps: seq<string>)
    requires forall i :: 0 <= i < |ps| ==> '\n' !in ps[i]
    ensures forall i :: 0 <= i < |[""] + ps| ==> '\n' !in ([""] + ps)[i]
  {
    forall i | 0 < i < |[""] + ps| ensures '\n' !in ([""] + ps)[i] {
      assert ([""] + ps)[i] == ps[i - 1];
    }
  }

  /** The block form leaves out the separator: a value spanning several
      lines is written the same whatever separator it was given. */
  lemma MlBlockIgnoresSeparator(o: EncoderOptions, indent: nat, value: string, sep1: string, sep2: string)
    requires '\n' in RemoveCR(value)
    ensures MlText(o, indent, value, sep1) == MlText(o, indent, value, sep2)
  {
    SplitLinesCorrect(RemoveCR(value));
  }

  // ---------------------------------------------------------------------
  // Scalars, empty containers and the options that are dropped

  /** An integer is written in base 10 after the separator, and reads back
      as the same integer. */
  lemma IntReadsBack(o: EncoderOptions, isNum: string -> bool, i: int64, noIndent: bool,
                     sep: string, isRoot: bool, indent: nat)
    ensures ValueText(o, isNum, Int(i), noIndent, sep, isRoot, indent) == Ok(sep + IntToDecimal(i as int))
    ensures DecimalValue(IntToDecimal(i as int)) == i as int
  {
    IntToDecimalRoundTrip(i as int);
  }

  /** An empty slice or map is written as `[]` or `{}` right after the
      separator, whatever the layout options. */
  lemma EmptyContainers(o: EncoderOptions, isNum: string -> bool, noIndent: bool, sep: string,
                        isRoot: bool, indent: nat)
    ensures ValueText(o, isNum, Sequence([]), noIndent, sep, isRoot, indent) == Ok(sep + "[]")
    ensures ValueText(o, isNum, Mapping([]), noIndent, sep, isRoot, indent) == Ok(sep + "{}")
  {
  }

  /** With `UnknownAsNull` a value of an unknown kind becomes `null`, and
      the separator is not written. */
  lemma UnknownAsNullDropsSeparator(o: EncoderOptions, isNum: string -> bool, t: string,
                                    noIndent: bool, sep: string, isRoot: bool, indent: nat)
    requires o.unknownAsNull
    ensures ValueText(o, isNum, Unknown(t), noIndent, sep, isRoot, indent) == Ok("null")
  {
  }

  /** `MarshalWithOptions` does not pass `AllowMinusZero` and
      `UnknownAsNull` on: its result does not depend on them. */
  lemma MarshalIgnoresDroppedOptions(v: Value, options: EncoderOptions, isNum: string -> bool,
                                     allowMinusZero: bool, unknownAsNull: bool)
    ensures MarshalText(v, options, isNum)
            == MarshalText(v, options.(allowMinusZero := allowMinusZero, unknownAsNull := unknownAsNull), isNum)
  {
  }

  /** So a zero float, negative or not, is always written `0`, and a value
      of an unknown kind always fails, even when the caller asked for the
      opposite. */
  lemma MarshalZeroAndUnknown(options: EncoderOptions, isNum: string -> bool,
                              fixed: string, exponent: string, t: string)
    ensures MarshalText(Float(Finite(true, fixed, exponent)), options, isNum) == Ok("0")
    ensures MarshalText(Unknown(t), options, isNum) == Err("Unsupported type " + t)
  {
    var o := CopiedOptions(options);
    assert ValueText(o, isNum, Float(Finite(true, fixed, exponent)), true, "", true, 0) == Ok("" + "0");
    assert "" + "0" == "0";
    assert ValueText(o, isNum, Unknown(t), true, "", true, 0) == Err("Unsupported type " + t);
  }

  // ---------------------------------------------------------------------
  // Maps: key order, coverage, braces, and independence of the given order

  /** The value `str` writes for the `i`-th key in sorted order. */
  function SortedValue(entries: seq<Entry>, i: nat): Value
    requires i < |entries|
  {
    entries[FindKey(entries, SortedKeys(entries)[i])].val
  }

  /** The keys of a map are emitted in strictly ascending order, each key of
      the map once. */
  lemma EmittedKeyOrder(entries: seq<Entry>)
    requires DistinctKeys(entries)
    ensures Ascending(SortedKeys(entries))
    ensures multiset(SortedKeys(entries)) == multiset(KeysOf(entries))
  {
    var ks := KeysOf(entries);
    forall i, j | 0 <= i < j < |ks| ensures ks[i] != ks[j] {
      KeysOfIndex(entries, i);
      KeysOfIndex(entries, j);
    }
    SortKeysAscending(ks);
    SortKeysCorrect(ks);
  }

  /** Every entry of a map is the one written for some position of the
      sorted keys. */
  lemma SortedKeysCover(entries: seq<Entry>, j: nat)
    requires DistinctKeys(entries) && j < |entries|
    ensures exists i :: 0 <= i < |entries| && FindKey(entries, SortedKeys(entries)[i]) == j
  {
    var k := entries[j].key;
    var ks := SortedKeys(entries);
    KeysOfIndex(entries, j);
    SortKeysCorrect(KeysOf(entries));
    assert k in multiset(ks);
    var i :| 0 <= i < |ks| && ks[i] == k;
  }

  /** Where the braces of a non-empty map go: a root map has none unless
      `EmitRootBraces` is set; otherwise the opening brace follows a new
      line at the map's own indent, or the separator when `noIndent` or
      `BracesSameLine` says so, and the closing brace stands on a line of
      its own at the map's indent. */
  lemma MapBraces(o: EncoderOptions, isNum: string -> bool, v: Value, noIndent: bool, sep: string,
                  isRoot: bool, indent: nat)
    requires v.Mapping? && |v.entries| > 0
    requires EntriesText(o, isNum, v, |v.entries|, indent + 1).Ok?
    ensures var body := EntriesText(o, isNum, v, |v.entries|, indent + 1).value;
            var r := ValueText(o, isNum, v, noIndent, sep, isRoot, indent);
            r.Ok?
            && (isRoot && !o.emitRootBraces ==> r.value == body)
            && (!isRoot || o.emitRootBraces ==>
                  r.value == (if !noIndent && !o.bracesSameLine then IndentText(o, indent) else sep)
                             + "{" + body + IndentText(o, indent) + "}")
  {
    var body := EntriesText(o, isNum, v, |v.entries|, indent + 1).value;
    assert ValueText(o, isNum, v, noIndent, sep, isRoot, indent)
           == MappingText(o, isNum, v, noIndent, sep, isRoot, indent);
    if isRoot && !o.emitRootBraces {
      assert "" + body + "" == body;
    }
  }

  lemma {:induction false} KeysOfAppend(a: seq<Entry>, b: seq<Entry>)
    ensures KeysOf(a + b) == KeysOf(a) + KeysOf(b)
    decreases |a|
  {
    if a != [] {
      assert (a + b)[1..] == a[1..] + b;
      KeysOfAppend(a[1..], b);
    } else {
      assert a + b == b;
    }
  }

  /** Entries that are a permutation of each other have keys that are. */
  lemma {:induction false} PermutedKeys(e1: seq<Entry>, e2: seq<Entry>)
    requires multiset(e1) == multiset(e2)
    ensures multiset(KeysOf(e1)) == multiset(KeysOf(e2))
    decreases |e1|
  {
    if e1 == [] {
      assert |multiset(e2)| == 0;
    } else {
      var x := e1[0];
      assert x in multiset(e2);
      var j :| 0 <= j < |e2| && e2[j] == x;
      var rest := e2[..j] + e2[j + 1..];
      assert e2 == e2[..j] + [x] + e2[j + 1..];
      assert e1 == [x] + e1[1..];
      calc {
        multiset(e1[1..]);
        multiset(e1) - multiset{x};
        multiset(e2) - multiset{x};
        multiset(e2[..j]) + multiset{x} + multiset(e2[j + 1..]) - multiset{x};
        multiset(rest);
      }
      PermutedKeys(e1[1..], rest);
      KeysOfAppend(e2[..j] + [x], e2[j + 1..]);
      KeysOfAppend(e2[..j], [x]);
      KeysOfAppend(e2[..j], e2[j + 1..]);
    }
  }

  /** For a key of one of two maps with the same entries, both maps hold
      the same entry under it. */
  lemma PermutedLookup(e1: seq<Entry>, e2: seq<Entry>, k: string)
    requires DistinctKeys(e2) && multiset(e1) == multiset(e2)
    requires k in KeysOf(e1)
    ensures k in KeysOf(e2)
    ensures e1[FindKey(e1, k)] == e2[FindKey(e2, k)]
  {
    var x := e1[FindKey(e1, k)];
    assert x in multiset(e2);
    var j :| 0 <= j < |e2| && e2[j] == x;
    KeysOfIndex(e2, j);
  }

  /** `a` and `b` are the same tree except for the order in which maps, at
      any depth, hand over their entries: sequences match element by
      element, maps have the same keys and the same-up-to-order value under
      each key, and every other node is equal. */
  predicate SameUpToOrder(a: Value, b: Value)
    decreases a
  {
    match a
    case Sequence(xs) =>
      b.Sequence? && |xs| == |b.items|
      && forall i :: 0 <= i < |xs| ==> SameUpToOrder(xs[i], b.items[i])
    case Mapping(es) =>
      b.Mapping? && multiset(KeysOf(es)) == multiset(KeysOf(b.entries))
      && forall k :: k in KeysOf(es) ==>
           k in KeysOf(b.entries)
           && SameUpToOrder(es[FindKey(es, k)].val, b.entries[FindKey(b.entries, k)].val)
    case _ => a == b
  }

  /** Every tree is the same as itself up to order. */
  lemma {:induction false} SameUpToOrderReflexive(v: Value)
    ensures SameUpToOrder(v, v)
    decreases v
  {
    match v
    case Sequence(xs) =>
      forall i | 0 <= i < |xs| ensures SameUpToOrder(xs[i], xs[i]) {
        SameUpToOrderReflexive(xs[i]);
      }
    case Mapping(es) =>
      forall k | k in KeysOf(es) ensures SameUpToOrder(es[FindKey(es, k)].val, es[FindKey(es, k)].val) {
        SameUpToOrderReflexive(es[FindKey(es, k)].val);
      }
    case _ =>
  }

  /** The same entries of a Go map, handed over in another order, make a
      tree that is the same up to order. */
  lemma PermutedSameUpToOrder(e1: seq<Entry>, e2: seq<Entry>)
    requires DistinctKeys(e2) && multiset(e1) == multiset(e2)
    ensures SameUpToOrder(Mapping(e1), Mapping(e2))
  {
    PermutedKeys(e1, e2);
    forall k | k in KeysOf(e1)
      ensures k in KeysOf(e2)
      ensures SameUpToOrder(e1[FindKey(e1, k)].val, e2[FindKey(e2, k)].val)
    {
      PermutedLookup(e1, e2, k);
      SameUpToOrderReflexive(e1[FindKey(e1, k)].val);
    }
  }

  /** Maps with the same keys have the same sorted keys. */
  lemma SameKeysSorted(e1: seq<Entry>, e2: seq<Entry>)
    requires multiset(KeysOf(e1)) == multiset(KeysOf(e2))
    ensures |e1| == |e2| && SortedKeys(e1) == SortedKeys(e2)
  {
    SortKeysCorrect(KeysOf(e1));
    SortKeysCorrect(KeysOf(e2));
    SortedUnique(SortedKeys(e1), SortedKeys(e2));
    assert |e1| == |multiset(KeysOf(e1))| == |multiset(KeysOf(e2))| == |e2|;
  }

  /** Trees that are the same up to the order of map entries, at every
      depth, are written as the same text (or fail with the same error):
      Go hands map keys over in no fixed order, and sorting them makes the
      whole output deterministic. */
  lemma {:induction false} SameTextUpToOrder(o: EncoderOptions, isNum: string -> bool, a: Value, b: Value,
                                             noIndent: bool, sep: string, isRoot: bool, indent: nat)
    requires SameUpToOrder(a, b)
    ensures ValueText(o, isNum, a, noIndent, sep, isRoot, indent)
            == ValueText(o, isNum, b, noIndent, sep, isRoot, indent)
    decreases a, 2
  {
    match a
    case Sequence(xs) =>
      if |xs| > 0 {
        SameItemsText(o, isNum, a, b, |xs|, indent + 1);
        assert ValueText(o, isNum, a, noIndent, sep, isRoot, indent)
               == SequenceText(o, isNum, a, noIndent, sep, indent);
        assert ValueText(o, isNum, b, noIndent, sep, isRoot, indent)
               == SequenceText(o, isNum, b, noIndent, sep, indent);
      }
    case Mapping(es) =>
      SameKeysSorted(es, b.entries);
      if |es| > 0 {
        var depth := indent + 1;
        forall i | 0 <= i < |es|
          ensures EntryText(o, isNum, a, i, depth) == EntryText(o, isNum, b, i, depth)
        {
          SameEntryText(o, isNum, a, b, i, depth);
        }
        SameEntriesText(o, isNum, a, b, |es|, depth);
        assert ValueText(o, isNum, a, noIndent, sep, isRoot, indent)
               == MappingText(o, isNum, a, noIndent, sep, isRoot, indent);
        assert ValueText(o, isNum, b, noIndent, sep, isRoot, indent)
               == MappingText(o, isNum, b, noIndent, sep, isRoot, indent);
      }
    case _ =>
  }

  /** The first `n` elements of two such sequences have the same text. */
  lemma {:induction false} SameItemsText(o: EncoderOptions, isNum: string -> bool, a: Value, b: Value,
                                         n: nat, depth: nat)
    requires a.Sequence? && SameUpToOrder(a, b) && n <= |a.items|
    ensures b.Sequence? && n <= |b.items|
    ensures ItemsText(o, isNum, a, n, depth) == ItemsText(o, isNum, b, n, depth)
    decreases a, 1, n
  {
    if n > 0 {
      SameItemsText(o, isNum, a, b, n - 1, depth);
      SameTextUpToOrder(o, isNum, a.items[n - 1], b.items[n - 1], true, "", false, depth);
    }
  }

  /** Two maps whose entries at each sorted position have the same text
      have the same text for their first `n` entries. */
  lemma {:induction false} SameEntriesText(o: EncoderOptions, isNum: string -> bool, a: Value, b: Value,
                                           n: nat, depth: nat)
    requires a.Mapping? && b.Mapping? && n <= |a.entries| && n <= |b.entries|
    requires forall i :: 0 <= i < n ==> EntryText(o, isNum, a, i, depth) == EntryText(o, isNum, b, i, depth)
    ensures EntriesText(o, isNum, a, n, depth) == EntriesText(o, isNum, b, n, depth)
  {
    if n > 0 {
      SameEntriesText(o, isNum, a, b, n - 1, depth);
    }
  }

  /** The entry at one sorted position has the same text in both maps. */
  lemma {:induction false} SameEntryText(o: EncoderOptions, isNum: string -> bool, a: Value, b: Value,
                                         i: nat, depth: nat)
    requires a.Mapping? && b.Mapping? && SameUpToOrder(a, b)
    requires SortedKeys(a.entries) == SortedKeys(b.entries)
    requires i < |a.entries| == |b.entries|
    ensures EntryText(o, isNum, a, i, depth) == EntryText(o, isNum, b, i, depth)
    decreases a, 0
  {
    var k := SortedKeys(a.entries)[i];
    assert k in KeysOf(a.entries);
    SameTextUpToOrder(o, isNum, a.entries[FindKey(a.entries, k)].val, b.entries[FindKey(b.entries, k)].val,
                      false, " ", false, depth);
    assert EntryText(o, isNum, a, i, depth) == KeyEntryText(o, isNum, a, k, depth);
    assert EntryText(o, isNum, b, i, depth) == KeyEntryText(o, isNum, b, k, depth);
  }

  /** The text of a map does not depend on the order its entries are given
      in. */
  lemma MapOrderIndependent(o: EncoderOptions, isNum: string -> bool, e1: seq<Entry>, e2: seq<Entry>,
                            noIndent: bool, sep: string, isRoot: bool, indent: nat)
    requires DistinctKeys(e2) && multiset(e1) == multiset(e2)
    ensures ValueText(o, isNum, Mapping(e1), noIndent, sep, isRoot, indent)
            == ValueText(o, isNum, Mapping(e2), noIndent, sep, isRoot, indent)
  {
    PermutedSameUpToOrder(e1, e2);
    SameTextUpToOrder(o, isNum, Mapping(e1), Mapping(e2), noIndent, sep, isRoot, indent);
  }

  /** `MarshalWithOptions` gives the same result for trees that are the
      same up to the order of map entries at any depth. */
  lemma MarshalOrderIndependent(v1: Value, v2: Value, options: EncoderOptions, isNum: string -> bool)
    requires SameUpToOrder(v1, v2)
    ensures MarshalText(v1, options, isNum) == MarshalText(v2, options, isNum)
  {
    SameTextUpToOrder(CopiedOptions(options), isNum, v1, v2, true, "", true, 0);
  }

  // ---------------------------------------------------------------------
  // When encoding fails

  /** Without `UnknownAsNull`, encoding a tree whose maps have distinct keys
      fails exactly when some node is of a kind the encoder does not know. */
  lemma {:induction false} ValueFailsIff(o: EncoderOptions, isNum: string -> bool, v: Value, noIndent: bool,
                                         sep: string, isRoot: bool, indent: nat)
    requires !o.unknownAsNull && WellFormed(v)
    ensures ValueText(o, isNum, v, noIndent, sep, isRoot, indent).Err? <==> HasUnknown(v)
    decreases v, 2
  {
    match v
    case Sequence(items) =>
      if |items| > 0 {
        ItemsFailIff(o, isNum, v, |items|, indent + 1);
        assert ValueText(o, isNum, v, noIndent, sep, isRoot, indent)
               == SequenceText(o, isNum, v, noIndent, sep, indent);
      }
    case Mapping(entries) =>
      if |entries| > 0 {
        MappingFailsIff(o, isNum, v, noIndent, sep, isRoot, indent);
        assert ValueText(o, isNum, v, noIndent, sep, isRoot, indent)
               == MappingText(o, isNum, v, noIndent, sep, isRoot, indent);
      }
    case _ =>
  }

  lemma {:induction false} MappingFailsIff(o: EncoderOptions, isNum: string -> bool, v: Value, noIndent: bool,
                                           sep: string, isRoot: bool, indent: nat)
    requires v.Mapping? && !o.unknownAsNull && WellFormed(v)
    ensures MappingText(o, isNum, v, noIndent, sep, isRoot, indent).Err? <==> HasUnknown(v)
    decreases v, 1
  {
    var entries := v.entries;
    EntriesFailIff(o, isNum, v, |entries|, indent + 1);
    if j :| 0 <= j < |entries| && HasUnknown(entries[j].val) {
      SortedKeysCover(entries, j);
      var i :| 0 <= i < |entries| && FindKey(entries, SortedKeys(entries)[i]) == j;
      assert HasUnknown(SortedValue(entries, i));
    }
  }

  lemma {:induction false} ItemsFailIff(o: EncoderOptions, isNum: string -> bool, v: Value, n: nat, depth: nat)
    requires v.Sequence? && n <= |v.items| && !o.unknownAsNull && WellFormed(v)
    ensures ItemsText(o, isNum, v, n, depth).Err? <==> exists i :: 0 <= i < n && HasUnknown(v.items[i])
    decreases v, 0, n
  {
    if n > 0 {
      ItemsFailIff(o, isNum, v, n - 1, depth);
      ValueFailsIff(o, isNum, v.items[n - 1], true, "", false, depth);
    }
  }

  lemma {:induction false} EntriesFailIff(o: EncoderOptions, isNum: string -> bool, v: Value, n: nat, depth: nat)
    requires v.Mapping? && n <= |v.entries| && !o.unknownAsNull && WellFormed(v)
    ensures EntriesText(o, isNum, v, n, depth).Err?
            <==> exists i :: 0 <= i < n && HasUnknown(SortedValue(v.entries, i))
    decreases v, 0, n
  {
    if n > 0 {
      EntriesFailIff(o, isNum, v, n - 1, depth);
      EntriesFailStep(o, isNum, v, n, depth);
      ValueFailsIff(o, isNum, SortedValue(v.entries, n - 1), false, " ", false, depth);
    }
  }

  /** One more entry fails exactly when its value does. */
  lemma EntriesFailStep(o: EncoderOptions, isNum: string -> bool, v: Value, n: nat, depth: nat)
    requires v.Mapping? && 0 < n <= |v.entries|
    ensures EntriesText(o, isNum, v, n, depth).Err?
            <==> EntriesText(o, isNum, v, n - 1, depth).Err?
                 || ValueText(o, isNum, SortedValue(v.entries, n - 1), false, " ", false, depth).Err?
  {
    var k := SortedKeys(v.entries)[n - 1];
    assert EntryText(o, isNum, v, n - 1, depth) == KeyEntryText(o, isNum, v, k, depth);
  }

  /** With `UnknownAsNull` encoding never fails. */
  lemma {:induction false} ValueNeverFails(o: EncoderOptions, isNum: string -> bool, v: Value, noIndent: bool,
                                           sep: string, isRoot: bool, indent: nat)
    requires o.unknownAsNull
    ensures ValueText(o, isNum, v, noIndent, sep, isRoot, indent).Ok?
    decreases v, 2
  {
    match v
    case Sequence(items) =>
      if |items| > 0 {
        ItemsNeverFail(o, isNum, v, |items|, indent + 1);
        assert ValueText(o, isNum, v, noIndent, sep, isRoot, indent)
               == SequenceText(o, isNum, v, noIndent, sep, indent);
      }
    case Mapping(entries) =>
      if |entries| > 0 {
        EntriesNeverFail(o, isNum, v, |entries|, indent + 1);
        assert ValueText(o, isNum, v, noIndent, sep, isRoot, indent)
               == MappingText(o, isNum, v, noIndent, sep, isRoot, indent);
      }
    case _ =>
  }

  lemma {:induction false} ItemsNeverFail(o: EncoderOptions, isNum: string -> bool, v: Value, n: nat, depth: nat)
    requires v.Sequence? && n <= |v.items| && o.unknownAsNull
    ensures ItemsText(o, isNum, v, n, depth).Ok?
    decreases v, 0, n
  {
    if n > 0 {
      ItemsNeverFail(o, isNum, v, n - 1, depth);
      ValueNeverFails(o, isNum, v.items[n - 1], true, "", false, depth);
    }
  }

  lemma {:induction false} EntriesNeverFail(o: EncoderOptions, isNum: string -> bool, v: Value, n: nat, depth: nat)
    requires v.Mapping? && n <= |v.entries| && o.unknownAsNull
    ensures EntriesText(o, isNum, v, n, depth).Ok?
    decreases v, 0, n
  {
    if n > 0 {
      EntriesNeverFail(o, isNum, v, n - 1, depth);
      var k := SortedKeys(v.entries)[n - 1];
      ValueNeverFails(o, isNum, v.entries[FindKey(v.entries, k)].val, false, " ", false, depth);
      assert EntryText(o, isNum, v, n - 1, depth) == KeyEntryText(o, isNum, v, k, depth);
    }
  }

  /** `MarshalWithOptions` fails exactly on trees with a node of unknown
      kind, whatever the caller's `UnknownAsNull`. */
  lemma MarshalFailsIff(v: Value, options: EncoderOptions, isNum: string -> bool)
    requires WellFormed(v)
    ensures MarshalText(v, options, isNum).Err? <==> HasUnknown(v)
  {
    ValueFailsIff(CopiedOptions(options), isNum, v, true, "", true, 0);
  }
}
