/**
 Documents of the JSON grammar as trees: what each stands for, and how it is spelled. The
 scanner reads every spelling back as what it stands for.
 */
module JsonWriter {
  import opened Prelude
  import opened JsonScanner

  // One element of a string: a character as it is, one of the eight short escapes, a code unit
  // in four hex digits, or a code point beyond 0xFFFF as two of those.
  datatype Piece = Plain(c: char) | Short(letter: char) | Unit(n: int, upper: Cases) | Pair(n: int, high: Cases, low: Cases)

  // Which of four hex digits are in upper case.
  datatype Cases = Cases(a: bool, b: bool, c: bool, d: bool)

  datatype Numeral = Numeral(negative: bool, whole: string, fraction: Option<string>, exponent: Option<Exponent>)

  datatype Exponent = Exponent(letter: char, sign: string, digits: string)

  datatype Word = NullWord | TrueWord | FalseWord | NaNWord | InfinityWord | MinusInfinityWord

  // Strings of white space stand wherever the grammar allows them.
  datatype Doc =
    | Literal(word: Word)
    | Numeric(numeral: Numeral)
    | Quoted(pieces: seq<Piece>)
    | List(inner: string, slots: seq<Slot>)
    | Dict(inner: string, entries: seq<Entry>)

  datatype Slot = Slot(lead: string, doc: Doc, trail: string)

  datatype Entry = Entry(lead: string, key: seq<Piece>, beforeColon: string, afterColon: string, doc: Doc, trail: string)

  // ---------- which trees are documents ----------

  predicate Spaces(s: string) {
    forall k :: 0 <= k < |s| ==> s[k] in " \t\n\r"
  }

  predicate DigitsOnly(s: string) {
    s != "" && forall k :: 0 <= k < |s| ==> s[k] in "0123456789"
  }

  predicate NumeralOk(n: Numeral) {
    && DigitsOnly(n.whole) && (n.whole[0] == '0' ==> |n.whole| == 1)
    && (n.fraction.Some? ==> DigitsOnly(n.fraction.value))
    && (n.exponent.Some? ==>
          n.exponent.value.letter in "eE" && n.exponent.value.sign in ["", "+", "-"] && DigitsOnly(n.exponent.value.digits))
  }

  predicate PieceOk(p: Piece) {
    match p
    case Plain(c) => c as int >= 0x20 && c != '"' && c != '\\'
    case Short(letter) => letter in "\"\\/bfnrt"
    case Unit(n, _) => 0 <= n <= 0xFFFF
    case Pair(n, _, _) => 0x10000 <= n <= 0x10FFFF
  }

  predicate EachOk(ps: seq<Piece>) {
    forall k :: 0 <= k < |ps| ==> PieceOk(ps[k])
  }

  // A high surrogate in hex digits before a low one would be read as a pair.
  predicate PiecesOk(ps: seq<Piece>) {
    && EachOk(ps)
    && forall k :: 0 <= k < |ps| - 1 ==>
         !(ps[k].Unit? && ps[k + 1].Unit? && 0xD800 <= ps[k].n <= 0xDBFF && 0xDC00 <= ps[k + 1].n <= 0xDFFF)
  }

  predicate DocOk(d: Doc) {
    match d
    case Literal(_) => true
    case Numeric(n) => NumeralOk(n)
    case Quoted(ps) => PiecesOk(ps)
    case List(inner, slots) =>
      Spaces(inner) && forall k :: 0 <= k < |slots| ==> Spaces(slots[k].lead) && DocOk(slots[k].doc) && Spaces(slots[k].trail)
    case Dict(inner, entries) =>
      Spaces(inner) && forall k :: 0 <= k < |entries| ==>
        && Spaces(entries[k].lead) && PiecesOk(entries[k].key) && Spaces(entries[k].beforeColon)
        && Spaces(entries[k].afterColon) && DocOk(entries[k].doc) && Spaces(entries[k].trail)
  }

  // ---------- what they stand for ----------

  // The control characters behind the letters, as RFC 8259 section 7 lists them.
  const SHORT_ESCAPES: map<char, int> :=
    map['"' := 0x22, '\\' := 0x5C, '/' := 0x2F, 'b' := 0x8, 'f' := 0xC, 'n' := 0xA, 'r' := 0xD, 't' := 0x9]

  function CodeOf(p: Piece): int
    requires PieceOk(p)
  {
    match p
    case Plain(c) => c as int
    case Short(letter) => SHORT_ESCAPES[letter]
    case Unit(n, _) => n
    case Pair(n, _, _) => n
  }

  function CodesOf(ps: seq<Piece>): seq<int>
    requires EachOk(ps)
  {
    if ps == [] then [] else [CodeOf(ps[0])] + CodesOf(ps[1..])
  }

  function WordValue(w: Word): Value {
    match w
    case NullWord => Null
    case TrueWord => Bool(true)
    case FalseWord => Bool(false)
    case NaNWord => Special("NaN")
    case InfinityWord => Special("Infinity")
    case MinusInfinityWord => Special("-Infinity")
  }

  function Meaning(d: Doc): Value
    requires DocOk(d)
    decreases d, 0
  {
    match d
    case Literal(w) => WordValue(w)
    case Numeric(n) => Number(SpelledNumeral(n))
    case Quoted(ps) => Str(CodesOf(ps))
    case List(_, slots) => Array(Meanings(slots))
    case Dict(_, entries) => Object(MemberMeanings(entries))
  }

  function Meanings(slots: seq<Slot>): (r: seq<Value>)
    requires forall k :: 0 <= k < |slots| ==> DocOk(slots[k].doc)
    ensures |r| == |slots|
    decreases slots, 1
  {
    if slots == [] then [] else [Meaning(slots[0].doc)] + Meanings(slots[1..])
  }

  function MemberMeanings(entries: seq<Entry>): (r: seq<Member>)
    requires forall k :: 0 <= k < |entries| ==> PiecesOk(entries[k].key) && DocOk(entries[k].doc)
    ensures |r| == |entries|
    decreases entries, 1
  {
    if entries == [] then []
    else
      assert PiecesOk(entries[0].key);
      [Member(CodesOf(entries[0].key), Meaning(entries[0].doc))] + MemberMeanings(entries[1..])
  }

  // ---------- how they are spelled ----------

  const LOWER: string := "0123456789abcdef"
  const UPPER: string := "0123456789ABCDEF"

  function HexChar(d: int, upper: bool): char
    requires 0 <= d < 0x10
  {
    if upper then UPPER[d] else LOWER[d]
  }

  function Hex(n: int, upper: Cases): (s: string)
    requires 0 <= n <= 0xFFFF
    ensures |s| == 4
  {
    [HexChar(n / 0x1000, upper.a), HexChar(n / 0x100 % 0x10, upper.b),
     HexChar(n / 0x10 % 0x10, upper.c), HexChar(n % 0x10, upper.d)]
  }

  // The two surrogates of a code point, as RFC 8259 section 7 and UTF-16 have them.
  function High(n: int): int { 0xD800 + (n - 0x10000) / 0x400 }

  function Low(n: int): int { 0xDC00 + (n - 0x10000) % 0x400 }

  function SpelledPiece(p: Piece): (s: string)
    requires PieceOk(p)
    ensures s != ""
  {
    match p
    case Plain(c) => [c]
    case Short(letter) => ['\\', letter]
    case Unit(n, upper) => "\\u" + Hex(n, upper)
    case Pair(n, high, low) => "\\u" + (Hex(High(n), high) + ("\\u" + Hex(Low(n), low)))
  }

  function SpelledPieces(ps: seq<Piece>): string
    requires EachOk(ps)
  {
    if ps == [] then "" else SpelledPiece(ps[0]) + SpelledPieces(ps[1..])
  }

  function SpelledString(ps: seq<Piece>): string
    requires EachOk(ps)
  {
    "\"" + (SpelledPieces(ps) + "\"")
  }

  function SpelledSign(negative: bool): string {
    if negative then "-" else ""
  }

  function SpelledFraction(fraction: Option<string>): string {
    if fraction.Some? then "." + fraction.value else ""
  }

  function SpelledExponent(x: Option<Exponent>): string {
    if x.Some? then [x.value.letter] + (x.value.sign + x.value.digits) else ""
  }

  function SpelledNumeral(n: Numeral): string {
    SpelledSign(n.negative) + (n.whole + (SpelledFraction(n.fraction) + SpelledExponent(n.exponent)))
  }

  function SpelledWord(w: Word): string {
    match w
    case NullWord => "null"
    case TrueWord => "true"
    case FalseWord => "false"
    case NaNWord => "NaN"
    case InfinityWord => "Infinity"
    case MinusInfinityWord => "-Infinity"
  }

  function Spelled(d: Doc): (s: string)
    requires DocOk(d)
    decreases d, 0
  {
    match d
    case Literal(w) => SpelledWord(w)
    case Numeric(n) => SpelledNumeral(n)
    case Quoted(ps) => SpelledString(ps)
    case List(inner, slots) => "[" + ((if slots == [] then inner else SpelledSlots(slots)) + "]")
    case Dict(inner, entries) => "{" + ((if entries == [] then inner else SpelledEntries(entries)) + "}")
  }

  function SpelledSlots(slots: seq<Slot>): string
    requires slots != [] && forall k :: 0 <= k < |slots| ==> DocOk(slots[k].doc)
    decreases slots, 1
  {
    slots[0].lead + (Spelled(slots[0].doc) + (slots[0].trail + (if |slots| == 1 then "" else "," + SpelledSlots(slots[1..]))))
  }

  function SpelledEntries(entries: seq<Entry>): string
    requires entries != [] && forall k :: 0 <= k < |entries| ==> PiecesOk(entries[k].key) && DocOk(entries[k].doc)
    decreases entries, 1
  {
    var e := entries[0];
    assert PiecesOk(e.key);
    e.lead + (SpelledString(e.key) + (e.beforeColon + (":" + (e.afterColon + (Spelled(e.doc)
    + (e.trail + (if |entries| == 1 then "" else "," + SpelledEntries(entries[1..]))))))))
  }
}
