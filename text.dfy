/** String helpers the encoder takes from Go's `strings`, `strconv` and `sort`
    packages: prefix and substring tests, repetition, removing carriage
    returns, splitting on newlines, byte-wise key order, sorting, and base-10
    integer text. */
module Text {

  /** `p` is a prefix of `s`. */
  predicate HasPrefix(s: string, p: string) {
    |p| <= |s| && s[..|p|] == p
  }

  /** `t` occurs in `s` starting at index `i`. */
  predicate OccursAt(s: string, t: string, i: int) {
    0 <= i && i + |t| <= |s| && s[i..i + |t|] == t
  }

  /** `t` occurs somewhere in `s`: what an unanchored literal pattern finds. */
  predicate Contains(s: string, t: string) {
    exists i | 0 <= i <= |s| :: OccursAt(s, t, i)
  }

  /** Concatenation is associative. Appending to a buffer piece by piece
      builds the same text as appending the pieces already joined. */
  lemma Assoc(a: string, b: string, c: string)
    ensures (a + b) + c == a + (b + c)
  {
  }

  /** `n` copies of `u`, one after the other. */
  function Repeat(u: string, n: nat): string {
    if n == 0 then "" else Repeat(u, n - 1) + u
  }

  /** `n` copies of `u` take `n` times its length and hold only its characters. */
  lemma {:induction false} RepeatShape(u: string, n: nat)
    ensures |Repeat(u, n)| == n * |u|
    ensures forall c :: c in Repeat(u, n) ==> c in u
  {
    if n > 0 {
      RepeatShape(u, n - 1);
    }
  }

  /** `strings.Replace(s, "\r", "", -1)`. */
  function RemoveCR(s: string): string {
    if s == [] then []
    else if s[0] == '\r' then RemoveCR(s[1..])
    else [s[0]] + RemoveCR(s[1..])
  }

  /** Every carriage return is removed and every other character kept. */
  lemma {:induction false} RemoveCRCorrect(s: string)
    ensures '\r' !in RemoveCR(s)
    ensures '\r' !in s ==> RemoveCR(s) == s
    ensures multiset(RemoveCR(s)) == multiset(s)[('\r') := 0]
    decreases |s|
  {
    if s != [] {
      RemoveCRCorrect(s[1..]);
      assert s == [s[0]] + s[1..];
    }
  }

  /** The inverse of `SplitLines`: the lines joined with newlines. */
  function JoinLines(ls: seq<string>): string
    requires |ls| >= 1
  {
    if |ls| == 1 then ls[0] else ls[0] + "\n" + JoinLines(ls[1..])
  }

  /** `strings.Split(s, "\n")`: the pieces between newlines. */
  function SplitLines(s: string): (r: seq<string>)
    ensures |r| >= 1
  {
    if s == [] then [""]
    else
      var rest := SplitLines(s[1..]);
      if s[0] == '\n' then [""] + rest
      else [[s[0]] + rest[0]] + rest[1..]
  }

  /** The pieces hold no newline and joined with newlines give back the
      string: one more piece than there are newlines, and the empty string
      gives one empty piece. */
  lemma {:induction false} SplitLinesCorrect(s: string)
    ensures forall i :: 0 <= i < |SplitLines(s)| ==> '\n' !in SplitLines(s)[i]
    ensures JoinLines(SplitLines(s)) == s
    ensures '\n' !in s ==> SplitLines(s) == [s]
    ensures '\n' in s ==> |SplitLines(s)| >= 2
    decreases |s|
  {
    if s != [] {
      SplitLinesCorrect(s[1..]);
      var rest := SplitLines(s[1..]);
      assert s == [s[0]] + s[1..];
      if s[0] == '\n' {
        assert ([""] + rest)[1..] == rest;
      } else {
        var r := [[s[0]] + rest[0]] + rest[1..];
        assert r[1..] == rest[1..];
        assert forall i :: 0 < i < |r| ==> r[i] == rest[i];
      }
    }
  }

  lemma {:induction false} JoinLinesSnoc(ls: seq<string>, x: string)
    requires |ls| >= 1
    ensures JoinLines(ls + [x]) == JoinLines(ls) + "\n" + x
    decreases |ls|
  {
    if |ls| == 1 {
      assert ls + [x] == [ls[0], x];
      assert (ls + [x])[1..] == [x];
    } else {
      assert (ls + [x])[1..] == ls[1..] + [x];
      JoinLinesSnoc(ls[1..], x);
    }
  }

  lemma {:induction false} SplitLinesPrefix(a: string, t: string)
    requires '\n' !in a
    ensures SplitLines(a + "\n" + t) == [a] + SplitLines(t)
    decreases |a|
  {
    if a == [] {
      assert a + "\n" + t == "\n" + t;
      assert ("\n" + t)[1..] == t;
    } else {
      var s := a + "\n" + t;
      assert s[0] == a[0] && s[1..] == a[1..] + "\n" + t;
      SplitLinesPrefix(a[1..], t);
      assert [a[0]] + a[1..] == a;
    }
  }

  lemma {:induction false} SplitLinesSingle(a: string)
    requires '\n' !in a
    ensures SplitLines(a) == [a]
  {
    SplitLinesCorrect(a);
  }

  /** Splitting undoes joining, for lines that hold no newline. */
  lemma {:induction false} SplitJoinLines(ls: seq<string>)
    requires |ls| >= 1
    requires forall i :: 0 <= i < |ls| ==> '\n' !in ls[i]
    ensures SplitLines(JoinLines(ls)) == ls
    decreases |ls|
  {
    if |ls| == 1 {
      SplitLinesSingle(ls[0]);
    } else {
      SplitJoinLines(ls[1..]);
      SplitLinesPrefix(ls[0], JoinLines(ls[1..]));
      assert [ls[0]] + ls[1..] == ls;
    }
  }

  /** `a < b` on Go strings (`SortAlpha.Less`): lexicographic order. Go
      compares UTF-8 bytes; for sequences of Unicode scalar values that is
      the same order as comparing code points, which is what this does. */
  predicate Less(a: string, b: string) {
    if a == [] then b != []
    else b != [] && (a[0] < b[0] || (a[0] == b[0] && Less(a[1..], b[1..])))
  }

  lemma {:induction false} LessIrreflexive(a: string)
    ensures !Less(a, a)
  {
    if a != [] {
      LessIrreflexive(a[1..]);
    }
  }

  lemma {:induction false} LessTransitive(a: string, b: string, c: string)
    requires Less(a, b) && Less(b, c)
    ensures Less(a, c)
    decreases |a|
  {
    if a != [] && a[0] == b[0] && b[0] == c[0] {
      LessTransitive(a[1..], b[1..], c[1..]);
    }
  }

  lemma {:induction false} LessTotal(a: string, b: string)
    ensures a == b || Less(a, b) || Less(b, a)
    decreases |a|
  {
    if a != [] && b != [] && a[0] == b[0] {
      LessTotal(a[1..], b[1..]);
      if a[1..] == b[1..] {
        assert a == [a[0]] + a[1..] && b == [b[0]] + b[1..];
      }
    }
  }

  lemma LessAsymmetric(a: string, b: string)
    requires Less(a, b)
    ensures !Less(b, a)
  {
    if Less(b, a) {
      LessTransitive(a, b, a);
      LessIrreflexive(a);
    }
  }

  /** Ascending order, equal neighbours allowed. */
  predicate Sorted(s: seq<string>) {
    forall i, j :: 0 <= i < j < |s| ==> !Less(s[j], s[i])
  }

  /** Strictly ascending order. */
  predicate Ascending(s: seq<string>) {
    forall i, j :: 0 <= i < j < |s| ==> Less(s[i], s[j])
  }

  /** `k` placed before the first element that is not less than it. */
  function Insert(k: string, s: seq<string>): seq<string> {
    if s == [] then [k]
    else if !Less(s[0], k) then [k] + s
    else [s[0]] + Insert(k, s[1..])
  }

  lemma {:induction false} InsertPermutation(k: string, s: seq<string>)
    ensures multiset(Insert(k, s)) == multiset(s) + multiset{k}
  {
    if s != [] && Less(s[0], k) {
      InsertPermutation(k, s[1..]);
      assert s == [s[0]] + s[1..];
    }
  }

  /** Inserting into a sorted sequence keeps it sorted. */
  lemma {:induction false} InsertSorted(k: string, s: seq<string>)
    requires Sorted(s)
    ensures Sorted(Insert(k, s))
  {
    var r := Insert(k, s);
    if s == [] {
    } else if !Less(s[0], k) {
      forall i, j | 0 <= i < j < |r| ensures !Less(r[j], r[i]) {
        if i == 0 && Less(r[j], k) {
          LessTotal(s[0], k);
          if j > 1 {
            LessTotal(s[0], s[j - 1]);
            if Less(s[0], s[j - 1]) { LessTransitive(s[0], s[j - 1], k); }
          }
        }
      }
    } else {
      var rest := Insert(k, s[1..]);
      InsertSorted(k, s[1..]);
      InsertPermutation(k, s[1..]);
      assert s == [s[0]] + s[1..];
      forall j | 0 < j < |r| ensures !Less(r[j], s[0]) {
        assert r[j] in multiset(rest);
        if r[j] == k {
          LessAsymmetric(s[0], k);
        } else {
          assert r[j] in multiset(s[1..]);
          var m :| 0 <= m < |s[1..]| && s[1..][m] == r[j];
          assert s[m + 1] == r[j];
        }
      }
    }
  }

  /** `sort.Sort(SortAlpha(keys))`: insertion of each key in turn. */
  function SortKeys(keys: seq<string>): seq<string> {
    if keys == [] then [] else Insert(keys[0], SortKeys(keys[1..]))
  }

  /** The keys come out in ascending order, each kept as often as it occurs. */
  lemma {:induction false} SortKeysCorrect(keys: seq<string>)
    ensures Sorted(SortKeys(keys))
    ensures multiset(SortKeys(keys)) == multiset(keys)
  {
    if keys != [] {
      SortKeysCorrect(keys[1..]);
      InsertSorted(keys[0], SortKeys(keys[1..]));
      InsertPermutation(keys[0], SortKeys(keys[1..]));
      assert keys == [keys[0]] + keys[1..];
    }
  }

  /** The first element of a non-empty sorted sequence is one of its least. */
  lemma SortedHeadsEqual(a: seq<string>, b: seq<string>)
    requires Sorted(a) && Sorted(b) && a != [] && b != []
    requires multiset(a) == multiset(b)
    ensures a[0] == b[0]
  {
    assert a[0] in multiset(b) && b[0] in multiset(a);
    var i :| 0 <= i < |a| && a[i] == b[0];
    var j :| 0 <= j < |b| && b[j] == a[0];
    if i == 0 { LessIrreflexive(a[0]); }
    if j == 0 { LessIrreflexive(b[0]); }
    assert !Less(a[i], a[0]) && !Less(b[j], b[0]);
    LessTotal(a[0], b[0]);
  }

  lemma TailsSameMultiset(a: seq<string>, b: seq<string>)
    requires a != [] && b != [] && a[0] == b[0]
    requires multiset(a) == multiset(b)
    ensures multiset(a[1..]) == multiset(b[1..])
  {
    assert a == [a[0]] + a[1..];
    assert b == [b[0]] + b[1..];
    assert multiset(a) == multiset([a[0]]) + multiset(a[1..]);
    assert multiset(b) == multiset([b[0]]) + multiset(b[1..]);
    forall x ensures multiset(a[1..])[x] == multiset(b[1..])[x] {
      assert multiset(a)[x] == multiset(b)[x];
    }
  }

  /** Inserting a new key into a strictly ascending sequence keeps it
      strictly ascending. */
  lemma {:induction false} InsertAscending(k: string, s: seq<string>)
    requires Ascending(s) && k !in s
    ensures Ascending(Insert(k, s))
  {
    var r := Insert(k, s);
    if s == [] {
    } else if !Less(s[0], k) {
      LessTotal(s[0], k);
      forall i, j | 0 <= i < j < |r| ensures Less(r[i], r[j]) {
        if i == 0 && j > 1 {
          LessTransitive(k, s[0], s[j - 1]);
        }
      }
    } else {
      var rest := Insert(k, s[1..]);
      assert s == [s[0]] + s[1..];
      InsertAscending(k, s[1..]);
      InsertPermutation(k, s[1..]);
      forall j | 0 < j < |r| ensures Less(s[0], r[j]) {
        assert r[j] == rest[j - 1];
        assert r[j] in multiset(rest);
        if r[j] != k {
          assert r[j] in multiset(s[1..]);
          var m :| 0 <= m < |s[1..]| && s[1..][m] == r[j];
          assert s[m + 1] == r[j];
        }
      }
    }
  }

  /** Sorting keys that are pairwise different gives strictly ascending keys. */
  lemma {:induction false} SortKeysAscending(keys: seq<string>)
    requires forall i, j :: 0 <= i < j < |keys| ==> keys[i] != keys[j]
    ensures Ascending(SortKeys(keys))
  {
    if keys != [] {
      SortKeysAscending(keys[1..]);
      SortKeysCorrect(keys[1..]);
      assert keys[0] !in multiset(keys[1..]);
      InsertAscending(keys[0], SortKeys(keys[1..]));
    }
  }

  /** Two sorted arrangements of the same keys are the same sequence: the
      order the encoder emits does not depend on the order it was given. */
  lemma {:induction false} SortedUnique(a: seq<string>, b: seq<string>)
    requires Sorted(a) && Sorted(b)
    requires multiset(a) == multiset(b)
    ensures a == b
    decreases |a|
  {
    if a == [] {
      assert |multiset(b)| == 0;
    } else {
      assert |multiset(b)| == |a|;
      SortedHeadsEqual(a, b);
      TailsSameMultiset(a, b);
      SortedUnique(a[1..], b[1..]);
      assert a == [a[0]] + a[1..] && b == [b[0]] + b[1..];
    }
  }

  /** `strings.ToLower` on the ASCII text `strconv` produces: upper-case
      letters lowered, every other character kept. */
  function AsciiLower(s: string): (r: string)
    ensures |r| == |s|
    ensures forall i :: 0 <= i < |r| ==> !('A' <= r[i] <= 'Z')
    ensures forall i :: 0 <= i < |s| && !('A' <= s[i] <= 'Z') ==> r[i] == s[i]
  {
    if s == [] then []
    else
      var c := if 'A' <= s[0] <= 'Z' then (s[0] as int + 32) as char else s[0];
      [c] + AsciiLower(s[1..])
  }

  predicate IsDigit(c: char) { '0' <= c <= '9' }

  function DigitChar(d: nat): (c: char)
    requires d < 10
    ensures IsDigit(c) && c as int - '0' as int == d
  {
    ('0' as int + d) as char
  }

  /** Base-10 digits of `n`, most significant first, without leading zeros. */
  function NatToDecimal(n: nat): (r: string)
    ensures |r| >= 1
    ensures forall i :: 0 <= i < |r| ==> IsDigit(r[i])
    ensures r[0] == '0' ==> n == 0
    decreases n
  {
    if n < 10 then [DigitChar(n)] else NatToDecimal(n / 10) + [DigitChar(n % 10)]
  }

  /** `strconv.FormatInt(i, 10)`: a minus sign for negative numbers, then
      the digits of the magnitude. */
  function IntToDecimal(i: int): (r: string)
    ensures |r| >= 1
    ensures (r[0] == '-') == (i < 0)
    ensures forall k :: (if i < 0 then 1 else 0) <= k < |r| ==> IsDigit(r[k])
  {
    if i < 0 then "-" + NatToDecimal(-i) else NatToDecimal(i)
  }

  /** The value of a string of decimal digits (a reader, used as the partner
      of `NatToDecimal`). */
  function DigitsValue(s: string): (n: int)
    requires forall i :: 0 <= i < |s| ==> IsDigit(s[i])
    ensures n >= 0
  {
    if s == [] then 0
    else
      assert IsDigit(s[|s| - 1]);
      DigitsValue(s[..|s| - 1]) * 10 + (s[|s| - 1] as int - '0' as int)
  }

  /** Reads back an optionally signed decimal integer. */
  function DecimalValue(s: string): int
    requires |s| >= 1
    requires forall k :: (if s[0] == '-' then 1 else 0) <= k < |s| ==> IsDigit(s[k])
  {
    if s[0] == '-' then -DigitsValue(s[1..]) else DigitsValue(s)
  }

  lemma {:induction false} NatToDecimalRoundTrip(n: nat)
    ensures DigitsValue(NatToDecimal(n)) == n
    decreases n
  {
    if n >= 10 {
      NatToDecimalRoundTrip(n / 10);
      var s := NatToDecimal(n);
      assert s[..|s| - 1] == NatToDecimal(n / 10);
    }
  }

  /** Reading the decimal text back gives the integer that was formatted. */
  lemma IntToDecimalRoundTrip(i: int)
    ensures DecimalValue(IntToDecimal(i)) == i
  {
    if i < 0 {
      NatToDecimalRoundTrip(-i);
      assert IntToDecimal(i)[1..] == NatToDecimal(-i);
    } else {
      NatToDecimalRoundTrip(i);
    }
  }
}
