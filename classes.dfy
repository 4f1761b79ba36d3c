/** The character classes and patterns the encoder compiles once at start-up
    (encode.go:44-63), written as the predicates they denote. Go's RE2 `\s`
    is the ASCII class `[\t\n\f\r ]`, `.` does not match a newline, and an
    unanchored pattern matches when it occurs anywhere in the text. */
module CharClass {
  import opened Text

  /** `\s` in RE2: tab, newline, form feed, carriage return, space. */
  predicate IsSpace(c: char) {
    c == '\t' || c == '\n' || c == '\U{c}' || c == '\r' || c == ' '
  }

  /** The class shared by `needsQuotes`, `needsEscape` and (in part)
      `needsEscapeML`: C0 controls, DEL and C1 controls, the soft hyphen and
      a set of Unicode format, separator and bidi-control code points. */
  predicate IsQuoteChar(c: char) {
    c <= '\U{1f}' || ('\U{7f}' <= c <= '\U{9f}') || c == '\U{ad}'
    || ('\U{600}' <= c <= '\U{604}') || c == '\U{70f}'
    || c == '\U{17b4}' || c == '\U{17b5}'
    || ('\U{200c}' <= c <= '\U{200f}') || ('\U{2028}' <= c <= '\U{202f}')
    || ('\U{2060}' <= c <= '\U{206f}') || c == '\U{feff}'
    || ('\U{fff0}' <= c <= '\U{ffff}')
  }

  /** The `needsEscape` class: the quote class plus backslash and double quote. */
  predicate IsEscapeChar(c: char) {
    c == '\\' || c == '"' || IsQuoteChar(c)
  }

  /** The character class of `needsEscapeML`: the quote class without
      newline and carriage return. */
  predicate IsEscapeMLChar(c: char) {
    IsQuoteChar(c) && c != '\n' && c != '\r'
  }

  /** A character that `needsEscapeName` finds in a key on its own. */
  predicate IsNameSpecial(c: char) {
    c == ',' || c == '{' || c == '[' || c == '}' || c == ']' || c == ':'
    || c == '#' || c == '"' || IsSpace(c)
  }

  /** `needsEscape` (encode.go:49) matches somewhere in `s`. */
  predicate NeedsEscape(s: string) {
    exists i | 0 <= i < |s| :: IsEscapeChar(s[i])
  }

  /** `needsQuotes` (encode.go:52) matches somewhere in `s`. */
  predicate NeedsQuotes(s: string) {
    exists i | 0 <= i < |s| :: IsQuoteChar(s[i])
  }

  /** `needsQuotes2` (encode.go:54): leading whitespace, a leading `"`,
      `'''`, `#`, a slash followed by a star or by a slash, `{` or `[`, or trailing whitespace. */
  predicate NeedsQuotes2(s: string) {
    |s| > 0 &&
    (IsSpace(s[0]) || s[0] == '"' || HasPrefix(s, "'''") || s[0] == '#'
     || HasPrefix(s, "/*") || HasPrefix(s, "//") || s[0] == '{' || s[0] == '['
     || IsSpace(s[|s| - 1]))
  }

  /** `needsEscapeML` (encode.go:57): `'''` occurs, or a character of the
      multiline-incompatible class does. */
  predicate NeedsEscapeML(s: string) {
    Contains(s, "'''") || exists i | 0 <= i < |s| :: IsEscapeMLChar(s[i])
  }

  /** What may follow a keyword and its trailing whitespace in
      `startsWithKeyword` (encode.go:60): nothing, or one of `,` `]` `}` `#`
      a double slash or a slash and a star, and then any characters up to the end, none of them a
      newline (`.` does not match one, and `$` is the end of the text). */
  predicate KeywordTail(t: string) {
    t == [] ||
    ((t[0] == ',' || t[0] == ']' || t[0] == '}' || t[0] == '#'
      || HasPrefix(t, "//") || HasPrefix(t, "/*"))
     && '\n' !in t)
  }

  predicate AllSpace(w: string) {
    forall i :: 0 <= i < |w| ==> IsSpace(w[i])
  }

  /** `s` is the keyword `kw`, then whitespace, then a keyword tail. */
  predicate KeywordThen(s: string, kw: string) {
    HasPrefix(s, kw) &&
    exists j | |kw| <= j <= |s| :: AllSpace(s[|kw|..j]) && KeywordTail(s[j..])
  }

  /** `startsWithKeyword` (encode.go:60) matches `s`. */
  predicate StartsWithKeyword(s: string) {
    KeywordThen(s, "true") || KeywordThen(s, "false") || KeywordThen(s, "null")
  }

  /** `needsEscapeName` (encode.go:62) matches somewhere in key `s`. */
  predicate NeedsEscapeName(s: string) {
    (exists i | 0 <= i < |s| :: IsNameSpecial(s[i]))
    || Contains(s, "//") || Contains(s, "/*") || Contains(s, "'''")
  }

  /** `needsQuotes` is `needsEscape` without backslash and double quote
      (encode.go:49-52): a string needs escaping exactly when it needs
      quotes or holds one of those two characters. */
  lemma EscapeIsQuotesPlusDelimiters(s: string)
    ensures NeedsEscape(s) <==> NeedsQuotes(s) || '\\' in s || '"' in s
  {
    if '\\' in s || '"' in s {
      var i :| 0 <= i < |s| && (s[i] == '\\' || s[i] == '"');
      assert IsEscapeChar(s[i]);
    }
  }

  /** A string that `needsEscapeML` does not match, as in the
      multiline case of `quote` (encode.go:106-109), holds no `'''` and no
      escape-worthy character other than backslash, double quote, newline
      and carriage return. */
  lemma MultilineCharacters(s: string)
    requires !NeedsEscapeML(s)
    ensures !Contains(s, "'''")
    ensures forall i :: 0 <= i < |s| && IsEscapeChar(s[i]) ==>
              s[i] == '\\' || s[i] == '"' || s[i] == '\n' || s[i] == '\r'
  {
    forall i | 0 <= i < |s| && IsEscapeChar(s[i])
      ensures s[i] == '\\' || s[i] == '"' || s[i] == '\n' || s[i] == '\r'
    {
      assert !IsEscapeMLChar(s[i]);
    }
  }
}
