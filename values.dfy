/** The encoder's input and configuration: the tagged value tree that takes the
    place of a reflected Go value, and `EncoderOptions` (encode.go:16-36). */
module Values {
  import opened Text

  /** Go's `int64`, the type `value.Int()` returns. */
  newtype int64 = x: int | -0x8000_0000_0000_0000 <= x < 0x8000_0000_0000_0000

  /** A float64 as far as the encoder looks at it: not a number, an
      infinity, or a finite number given by whether it compares equal to zero
      and by the two texts `strconv.FormatFloat` makes of it, with format
      'f' and with format 'E' (both with the shortest precision). */
  datatype FloatNum = NaN | Inf(negative: bool) | Finite(isZero: bool, fixed: string, exponent: string)

  /** What `str` distinguishes in a reflected value: a nil interface or
      pointer, a bool, an integer, a float, a string, a slice or array, a
      map with string keys (its entries in any order), or any other kind,
      named by its type. */
  datatype Value =
    | Null
    | Bool(b: bool)
    | Int(i: int64)
    | Float(f: FloatNum)
    | String(s: string)
    | Sequence(items: seq<Value>)
    | Mapping(entries: seq<Entry>)
    | Unknown(typeName: string)

  datatype Entry = Entry(key: string, val: Value)

  datatype EncoderOptions = EncoderOptions(
    eol: string,
    bracesSameLine: bool,
    emitRootBraces: bool,
    quoteAlways: bool,
    indentBy: string,
    allowMinusZero: bool,
    unknownAsNull: bool)

  /** `DefaultOptions` (encode.go:26-36). */
  function DefaultOptions(): (o: EncoderOptions)
    ensures o.eol == "\n" && o.indentBy == "  "
    ensures !o.bracesSameLine && o.emitRootBraces && !o.quoteAlways
    ensures !o.allowMinusZero && !o.unknownAsNull
  {
    EncoderOptions("\n", false, true, false, "  ", false, false)
  }

  /** The keys of a map, in the order its entries are given. */
  function KeysOf(entries: seq<Entry>): (ks: seq<string>)
    ensures |ks| == |entries|
  {
    if entries == [] then [] else [entries[0].key] + KeysOf(entries[1..])
  }

  /** The `i`-th key is the key of the `i`-th entry. */
  lemma {:induction false} KeysOfIndex(entries: seq<Entry>, i: nat)
    requires i < |entries|
    ensures KeysOf(entries)[i] == entries[i].key
    decreases |entries|
  {
    if i > 0 {
      KeysOfIndex(entries[1..], i - 1);
    }
  }

  /** `value.MapIndex(k)`: the position of the entry with key `k`. */
  function FindKey(entries: seq<Entry>, k: string): (i: nat)
    requires k in KeysOf(entries)
    ensures i < |entries| && entries[i].key == k
  {
    if entries[0].key == k then 0
    else
      assert k in KeysOf(entries[1..]) by {
        var j :| 0 <= j < |entries| && KeysOf(entries)[j] == k;
        assert j > 0 && KeysOf(entries[1..])[j - 1] == k;
      }
      1 + FindKey(entries[1..], k)
  }

  /** `FindKey` finds the first entry with the key. */
  lemma {:induction false} FindKeyFirst(entries: seq<Entry>, k: string, j: nat)
    requires k in KeysOf(entries) && j < FindKey(entries, k)
    ensures entries[j].key != k
    decreases |entries|
  {
    if j > 0 {
      assert k in KeysOf(entries[1..]) by {
        var m :| 0 <= m < |entries| && KeysOf(entries)[m] == k;
        assert m > 0 && KeysOf(entries[1..])[m - 1] == k;
      }
      FindKeyFirst(entries[1..], k, j - 1);
    }
  }

  /** A Go map has each key once. */
  predicate DistinctKeys(entries: seq<Entry>) {
    forall i, j :: 0 <= i < j < |entries| ==> entries[i].key != entries[j].key
  }

  /** Every map in the tree has distinct keys. */
  predicate WellFormed(v: Value) {
    match v
    case Sequence(items) => forall i :: 0 <= i < |items| ==> WellFormed(items[i])
    case Mapping(entries) =>
      DistinctKeys(entries) && forall i :: 0 <= i < |entries| ==> WellFormed(entries[i].val)
    case _ => true
  }

  /** Some node of the tree is of a kind the encoder does not know. */
  predicate HasUnknown(v: Value) {
    match v
    case Unknown(_) => true
    case Sequence(items) => exists i :: 0 <= i < |items| && HasUnknown(items[i])
    case Mapping(entries) => exists i :: 0 <= i < |entries| && HasUnknown(entries[i].val)
    case _ => false
  }
}
