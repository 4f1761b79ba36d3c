/** `quoteReplace` and its substitution table `meta` (encode.go:66-86), and a
    reader for the escapes it writes, used to state what the escaping keeps. */
module Escape {
  import opened Wrappers
  import opened Text
  import opened CharClass

  /** The first byte of the UTF-8 encoding of `c`. `quoteReplace` looks the
      table up with this byte (`meta[a[0]]`), not with the code point. */
  function FirstUtf8Byte(c: char): (b: nat)
    ensures b < 0x100
    ensures c as int < 0x80 ==> b == c as int
    ensures c as int >= 0x80 ==> b >= 0xC2
  {
    var n := c as int;
    if n < 0x80 then n
    else if n < 0x800 then
      assert n / 0x40 < 0x20;
      0xC0 + n / 0x40
    else if n < 0x10000 then
      assert n / 0x1000 < 0x10;
      0xE0 + n / 0x1000
    else
      assert n / 0x40000 < 0x10;
      0xF0 + n / 0x40000
  }

  /** The table `meta`: seven bytes with a two-character escape. */
  function Meta(b: nat): Option<string> {
    if b == 0x08 then Some("\\b")
    else if b == 0x09 then Some("\\t")
    else if b == 0x0A then Some("\\n")
    else if b == 0x0C then Some("\\f")
    else if b == 0x0D then Some("\\r")
    else if b == 0x22 then Some("\\\"")
    else if b == 0x5C then Some("\\\\")
    else None
  }

  /** The text of `fmt.Sprintf("\\u%04x", c)` with `c` the nil slice that the
      failed lookup returned: the hexadecimal of no bytes, padded to four
      with zeros. It is the same for every character it stands for. */
  const FallbackEscape: string := "\\u0000"

  /** A character the table knows. */
  predicate InTable(c: char) {
    Meta(FirstUtf8Byte(c)).Some?
  }

  /** What `quoteReplace` puts in place of one character. */
  function EscapeChar(c: char): (r: string)
    ensures r == [c] <==> !IsEscapeChar(c)
    ensures IsEscapeChar(c) ==> |r| >= 2 && r[0] == '\\'
    ensures forall i :: 0 <= i < |r| ==> !IsQuoteChar(r[i])
  {
    if !IsEscapeChar(c) then [c]
    else match Meta(FirstUtf8Byte(c))
      case Some(t) => t
      case None => FallbackEscape
  }

  /** `quoteReplace` (encode.go:77-86): every `needsEscape` character replaced
      by its escape, every other character kept. */
  function QuoteReplace(s: string): (r: string)
    ensures !NeedsEscape(s) ==> r == s
    ensures !NeedsQuotes(r)
    ensures |r| >= |s|
  {
    if s == [] then []
    else
      var rest := QuoteReplace(s[1..]);
      assert forall i | 0 <= i < |s[1..]| :: s[1..][i] == s[i + 1];
      var r := EscapeChar(s[0]) + rest;
      assert !NeedsQuotes(r) by {
        forall i | 0 <= i < |r| ensures !IsQuoteChar(r[i]) {
          if i >= |EscapeChar(s[0])| {
            assert r[i] == rest[i - |EscapeChar(s[0])|];
          }
        }
      }
      assert !NeedsEscape(s) ==> r == [s[0]] + s[1..] == s;
      r
  }

  /** The character a two-character escape `\x` stands for. */
  function Unescaped(x: char): Option<char> {
    if x == 'b' then Some('\U{8}')
    else if x == 't' then Some('\t')
    else if x == 'n' then Some('\n')
    else if x == 'f' then Some('\U{c}')
    else if x == 'r' then Some('\r')
    else if x == '"' then Some('"')
    else if x == '\\' then Some('\\')
    else None
  }

  /** Reads the inside of a double-quoted string: table escapes are decoded,
      and a raw `needsEscape` character or an unknown escape is rejected. */
  function Unescape(t: string): Option<string>
    decreases |t|
  {
    if t == [] then Some([])
    else if t[0] == '\\' then
      if |t| >= 2 && Unescaped(t[1]).Some? then
        match Unescape(t[2..])
        case Some(r) => Some([Unescaped(t[1]).value] + r)
        case None => None
      else None
    else if IsEscapeChar(t[0]) then None
    else
      match Unescape(t[1..])
      case Some(r) => Some([t[0]] + r)
      case None => None
  }

  /** Every character of `s` that needs escaping has a table entry. */
  predicate TableOnly(s: string) {
    forall i :: 0 <= i < |s| && IsEscapeChar(s[i]) ==> InTable(s[i])
  }

  /** A string with nothing to escape reads back as itself. */
  lemma {:induction false} UnescapePlain(s: string)
    requires !NeedsEscape(s)
    ensures Unescape(s) == Some(s)
    decreases |s|
  {
    if s != [] {
      assert !IsEscapeChar(s[0]);
      forall i | 0 <= i < |s[1..]| ensures !IsEscapeChar(s[1..][i]) {
        assert s[1..][i] == s[i + 1];
      }
      UnescapePlain(s[1..]);
      assert [s[0]] + s[1..] == s;
    }
  }

  lemma EscapeCharRoundTrip(c: char, rest: string)
    requires !IsEscapeChar(c) || InTable(c)
    ensures Unescape(EscapeChar(c) + rest) ==
            match Unescape(rest) case Some(r) => Some([c] + r) case None => None
  {
    var t := EscapeChar(c) + rest;
    if IsEscapeChar(c) {
      assert t[0] == '\\' && t[2..] == rest;
    } else {
      assert t[0] == c && t[1..] == rest;
    }
  }

  /** What the table condition says of the first character and of the rest. */
  lemma TableOnlyCons(s: string)
    requires s != [] && TableOnly(s)
    ensures !IsEscapeChar(s[0]) || InTable(s[0])
    ensures TableOnly(s[1..])
  {
    forall i | 0 <= i < |s[1..]| && IsEscapeChar(s[1..][i]) ensures InTable(s[1..][i]) {
      assert s[1..][i] == s[i + 1];
    }
  }

  /** Reading back what `quoteReplace` wrote gives the original string, as
      long as every character it escaped is one the table knows. */
  lemma {:induction false} QuoteReplaceRoundTrip(s: string)
    requires TableOnly(s)
    ensures Unescape(QuoteReplace(s)) == Some(s)
    decreases |s|
  {
    if s != [] {
      TableOnlyCons(s);
      QuoteReplaceRoundTrip(s[1..]);
      EscapeCharRoundTrip(s[0], QuoteReplace(s[1..]));
      assert [s[0]] + s[1..] == s;
    }
  }

  /** The table covers exactly the seven ASCII characters it lists; every
      other escape-worthy character, ASCII or not, takes the fallback. */
  lemma InTableExactly(c: char)
    ensures InTable(c) <==>
            c == '\U{8}' || c == '\t' || c == '\n' || c == '\U{c}' || c == '\r'
            || c == '"' || c == '\\'
  {
  }

  /** `quoteReplace` works character by character: the text of a
      concatenation is the concatenation of the texts. */
  lemma {:induction false} QuoteReplaceAppend(a: string, b: string)
    ensures QuoteReplace(a + b) == QuoteReplace(a) + QuoteReplace(b)
    decreases |a|
  {
    if a != [] {
      assert (a + b)[0] == a[0] && (a + b)[1..] == a[1..] + b;
      QuoteReplaceAppend(a[1..], b);
      Assoc(EscapeChar(a[0]), QuoteReplace(a[1..]), QuoteReplace(b));
    } else {
      assert a + b == b;
    }
  }

  /** Every escape-worthy character the table does not hold becomes the
      fallback text, which is not the character itself: the table entries
      and the fallback are the only escapes. */
  lemma FallbackAll(c: char)
    requires IsEscapeChar(c) && !InTable(c)
    ensures EscapeChar(c) == FallbackEscape && EscapeChar(c) != [c]
    ensures QuoteReplace([c]) == FallbackEscape
  {
    assert [c][1..] == [];
  }

  /** The fallback does not depend on the character: two different
      characters outside the table escape to the same text, so the original
      cannot be recovered from the output. */
  lemma FallbackLosesCharacter()
    ensures QuoteReplace("\U{ad}") == QuoteReplace("\U{2028}") == QuoteReplace("\U{1}")
    ensures QuoteReplace("\U{ad}") == FallbackEscape
  {
    assert IsEscapeChar('\U{ad}') && IsEscapeChar('\U{2028}') && IsEscapeChar('\U{1}');
    assert !InTable('\U{ad}') && !InTable('\U{2028}') && !InTable('\U{1}');
  }
}
