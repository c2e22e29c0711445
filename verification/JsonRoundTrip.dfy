/** The scanner reads every document as what it stands for, wherever it stands in a text. */
module JsonRoundTrip {
  import opened Prelude
  import opened JsonScanner
  import opened JsonWriter
  import opened IndexSteps

  // The text has s at i.
  predicate At(t: string, i: nat, s: string) {
    i + |s| <= |t| && t[i..i + |s|] == s
  }

  lemma Parts(t: string, i: nat, a: string, b: string)
    requires At(t, i, a + b)
    ensures At(t, i, a) && At(t, i + |a|, b) && i + |a| + |b| <= |t|
  {
    assert t[i..i + |a|] == (a + b)[..|a|];
    assert t[i + |a|..i + |a| + |b|] == (a + b)[|a|..];
  }

  lemma CharAt(t: string, i: nat, s: string, k: nat)
    requires At(t, i, s) && k < |s|
    ensures i + k < |t| && t[i + k] == s[k]
  {
    assert t[i..i + |s|][k] == s[k];
  }

  lemma HeadAt(t: string, i: nat, s: string)
    requires At(t, i, s) && s != ""
    ensures i < |t| && t[i] == s[0] && At(t, i + 1, s[1..])
  {
    CharAt(t, i, s, 0);
    assert s == [s[0]] + s[1..];
    Parts(t, i, [s[0]], s[1..]);
  }

  lemma Fits(t: string, i: nat, s: string)
    requires At(t, i, s)
    ensures i + |s| <= |t|
  {
  }

  // ---------- white space and words ----------

  lemma {:induction false} SpacesSkipped(t: string, i: nat, ws: string)
    requires At(t, i, ws) && Spaces(ws)
    requires i + |ws| <= |t| && (i + |ws| < |t| ==> !JsonSpace(t[i + |ws|]))
    ensures SkipSpace(t, i) == i + |ws|
    decreases |ws|
  {
    hide At;
    if ws != "" {
      HeadAt(t, i, ws);
      assert ws[0] in " \t\n\r";
      SpacesSkipped(t, i + 1, ws[1..]);
    }
  }

  lemma WordRead(t: string, i: nat, w: Word)
    requires At(t, i, SpelledWord(w))
    ensures ScanValue(t, i) == Done(WordValue(w), i + |SpelledWord(w)|)
  {
    CharAt(t, i, SpelledWord(w), 0);
    assert Matches(t, i, SpelledWord(w));
  }

  // ---------- strings ----------

  lemma HexDigitRead(d: int, upper: bool)
    requires 0 <= d < 16
    ensures HexDigit(HexChar(d, upper)) == Some(d)
  {
    assert LOWER == ['0', '1', '2', '3', '4', '5', '6', '7', '8', '9', 'a', 'b', 'c', 'd', 'e', 'f'];
    assert UPPER == ['0', '1', '2', '3', '4', '5', '6', '7', '8', '9', 'A', 'B', 'C', 'D', 'E', 'F'];
  }

  lemma HexRead(t: string, i: nat, n: int, upper: Cases)
    requires 0 <= n <= 0xFFFF && At(t, i, Hex(n, upper)) && i + 4 < |t|
    ensures HexQuad(t, i) == Some(n)
  {
    hide At, HexDigit, HexChar;
    var s := Hex(n, upper);
    CharAt(t, i, s, 0);
    CharAt(t, i, s, 1);
    CharAt(t, i, s, 2);
    CharAt(t, i, s, 3);
    HexDigitRead(n / 0x1000, upper.a);
    HexDigitRead(n / 0x100 % 0x10, upper.b);
    HexDigitRead(n / 0x10 % 0x10, upper.c);
    HexDigitRead(n % 0x10, upper.d);
    HexValue(n);
    FourDigits(t, i, n / 0x1000, n / 0x100 % 0x10, n / 0x10 % 0x10, n % 0x10);
  }

  lemma FourDigits(t: string, i: nat, a: int, b: int, c: int, d: int)
    requires i + 4 < |t| && HexDigit(t[i]) == Some(a) && HexDigit(t[i + 1]) == Some(b)
    requires HexDigit(t[i + 2]) == Some(c) && HexDigit(t[i + 3]) == Some(d)
    ensures HexQuad(t, i) == Some(((a * 16 + b) * 16 + c) * 16 + d)
  {
    hide HexDigit;
  }

  lemma HexValue(n: int)
    requires 0 <= n <= 0xFFFF
    ensures ((n / 0x1000 * 16 + n / 0x100 % 0x10) * 16 + n / 0x10 % 0x10) * 16 + n % 0x10 == n
  {
  }

  lemma PairValue(n: int)
    requires 0x10000 <= n <= 0x10FFFF
    ensures 0xD800 <= High(n) <= 0xDBFF && 0xDC00 <= Low(n) <= 0xDFFF
    ensures 0x10000 + (High(n) - 0xD800) * 0x400 + (Low(n) - 0xDC00) == n
  {
  }

  lemma ShortRead(t: string, i: nat, letter: char)
    requires PieceOk(Short(letter)) && At(t, i, SpelledPiece(Short(letter)))
    ensures ScanEscape(t, i) == Done(SHORT_ESCAPES[letter], i + 2)
  {
    CharAt(t, i, ['\\', letter], 0);
    CharAt(t, i, ['\\', letter], 1);
  }

  // What stands behind a code unit is no second half of a pair.
  predicate NoLowNext(t: string, i: nat) {
    i + 1 < |t| && t[i] == '\\' && t[i + 1] == 'u' ==>
      HexQuad(t, i + 2).Some? && !(0xDC00 <= HexQuad(t, i + 2).value <= 0xDFFF)
  }

  // A backslash, the letter u, and four digits.
  lemma UnitAt(t: string, i: nat, n: int, upper: Cases, rest: string)
    requires 0 <= n <= 0xFFFF && At(t, i, "\\u" + (Hex(n, upper) + rest)) && i + 6 < |t|
    ensures t[i] == '\\' && t[i + 1] == 'u' && HexQuad(t, i + 2) == Some(n) && At(t, i + 6, rest)
  {
    hide At, HexQuad;
    var hex := Hex(n, upper);
    hide Hex;
    Parts(t, i, "\\u", hex + rest);
    Parts(t, i + 2, hex, rest);
    CharAt(t, i, "\\u", 0);
    CharAt(t, i, "\\u", 1);
    HexRead(t, i + 2, n, upper);
  }

  lemma UnitAlone(t: string, i: nat, n: int, upper: Cases)
    requires 0 <= n <= 0xFFFF && At(t, i, SpelledPiece(Unit(n, upper))) && i + 6 < |t|
    ensures t[i] == '\\' && t[i + 1] == 'u' && HexQuad(t, i + 2) == Some(n)
  {
    assert SpelledPiece(Unit(n, upper)) == "\\u" + (Hex(n, upper) + "");
    hide At, HexQuad, Hex;
    UnitAt(t, i, n, upper, "");
  }

  lemma UnitRead(t: string, i: nat, n: int, upper: Cases)
    requires 0 <= n <= 0xFFFF && At(t, i, SpelledPiece(Unit(n, upper))) && i + 6 < |t|
    requires 0xD800 <= n <= 0xDBFF ==> NoLowNext(t, i + 6)
    ensures ScanEscape(t, i) == Done(n, i + 6)
  {
    hide At, HexQuad, SpelledPiece;
    UnitAlone(t, i, n, upper);
  }

  lemma PairAt(t: string, i: nat, n: int, high: Cases, low: Cases)
    requires PieceOk(Pair(n, high, low)) && At(t, i, SpelledPiece(Pair(n, high, low))) && i + 12 < |t|
    ensures t[i] == '\\' && t[i + 1] == 'u' && HexQuad(t, i + 2) == Some(High(n))
    ensures t[i + 6] == '\\' && t[i + 7] == 'u' && HexQuad(t, i + 8) == Some(Low(n))
  {
    hide At, HexQuad;
    PairValue(n);
    assert "\\u" + (Hex(Low(n), low) + "") == "\\u" + Hex(Low(n), low);
    hide Hex, High, Low;
    UnitAt(t, i, High(n), high, "\\u" + Hex(Low(n), low));
    UnitAt(t, i + 6, Low(n), low, "");
  }

  lemma PairRead(t: string, i: nat, n: int, high: Cases, low: Cases)
    requires PieceOk(Pair(n, high, low)) && At(t, i, SpelledPiece(Pair(n, high, low))) && i + 12 < |t|
    ensures ScanEscape(t, i) == Done(n, i + 12)
  {
    hide At, HexQuad, SpelledPiece, High, Low;
    PairAt(t, i, n, high, low);
    PairValue(n);
  }

  lemma PieceLength(p: Piece)
    requires PieceOk(p)
    ensures |SpelledPiece(p)| == match p { case Plain(_) => 1 case Short(_) => 2 case Unit(_, _) => 6 case Pair(_, _, _) => 12 }
    ensures p.Plain? ==> SpelledPiece(p)[0] == p.c
    ensures !p.Plain? ==> SpelledPiece(p)[0] == '\\'
    ensures p.Short? ==> SpelledPiece(p)[1] == p.letter
  {
  }

  // The characters with which the rest of a string can start.
  lemma {:induction false} RestStarts(t: string, i: nat, ps: seq<Piece>)
    requires EachOk(ps) && At(t, i, SpelledPieces(ps)) && i + |SpelledPieces(ps)| < |t| && t[i + |SpelledPieces(ps)|] == '"'
    requires ps != [] && ps[0].Unit? ==> !(0xDC00 <= ps[0].n <= 0xDFFF)
    ensures NoLowNext(t, i)
  {
    hide At, HexQuad, SpelledPiece, High, Low, Hex;
    if ps != [] {
      var first, rest := SpelledPiece(ps[0]), SpelledPieces(ps[1..]);
      PieceLength(ps[0]);
      Parts(t, i, first, rest);
      CharAt(t, i, first, 0);
      match ps[0] {
        case Plain(_) =>
        case Short(_) => CharAt(t, i, first, 1);
        case Unit(n, upper) => UnitAlone(t, i, n, upper);
        case Pair(n, high, low) =>
          PairAt(t, i, n, high, low);
          PairValue(n);
      }
    }
  }

  lemma PiecesTail(ps: seq<Piece>)
    requires PiecesOk(ps) && ps != []
    ensures PiecesOk(ps[1..])
    ensures |ps| > 1 && ps[0].Unit? && 0xD800 <= ps[0].n <= 0xDBFF && ps[1].Unit? ==> !(0xDC00 <= ps[1].n <= 0xDFFF)
  {
  }

  // One element, when the rest is read.
  lemma {:induction false} PieceRead(t: string, i: nat, p: Piece)
    requires PieceOk(p) && At(t, i, SpelledPiece(p)) && i + |SpelledPiece(p)| < |t|
    requires p.Unit? && 0xD800 <= p.n <= 0xDBFF ==> NoLowNext(t, i + 6)
    ensures ScanString(t, i) == Prepend(CodeOf(p), ScanString(t, i + |SpelledPiece(p)|))
  {
    hide At, SpelledPiece, ScanEscape;
    PieceLength(p);
    CharAt(t, i, SpelledPiece(p), 0);
    match p {
      case Plain(_) =>
      case Short(letter) => ShortRead(t, i, letter);
      case Unit(n, upper) => UnitRead(t, i, n, upper);
      case Pair(n, high, low) => PairRead(t, i, n, high, low);
    }
  }

  lemma {:induction false} PiecesRead(t: string, i: nat, ps: seq<Piece>)
    requires PiecesOk(ps) && At(t, i, SpelledPieces(ps))
    requires i + |SpelledPieces(ps)| < |t| && t[i + |SpelledPieces(ps)|] == '"'
    ensures ScanString(t, i) == Done(CodesOf(ps), i + |SpelledPieces(ps)| + 1)
    decreases |ps|
  {
    hide At, PiecesOk, NoLowNext, SpelledPiece, CodeOf;
    PiecesEach(ps);
    if ps != [] {
      PiecesTail(ps);
      hide ScanString;
      PiecesEach(ps[1..]);
      var first, rest := SpelledPiece(ps[0]), SpelledPieces(ps[1..]);
      Parts(t, i, first, rest);
      PiecesRead(t, i + |first|, ps[1..]);
      if ps[0].Unit? && 0xD800 <= ps[0].n <= 0xDBFF {
        PieceLength(ps[0]);
        RestStarts(t, i + 6, ps[1..]);
      }
      PieceRead(t, i, ps[0]);
    }
  }

  lemma PiecesEach(ps: seq<Piece>)
    requires PiecesOk(ps)
    ensures EachOk(ps)
  {
  }

  // ---------- numbers ----------

  predicate AllDigits(ds: string) {
    forall k :: 0 <= k < |ds| ==> ds[k] in "0123456789"
  }

  lemma {:induction false} DigitsRead(t: string, i: nat, ds: string)
    requires At(t, i, ds) && AllDigits(ds)
    requires i + |ds| <= |t| && (i + |ds| < |t| ==> !Digit(t[i + |ds|]))
    ensures DigitsEnd(t, i) == i + |ds|
    decreases |ds|
  {
    hide At;
    if ds != "" {
      HeadAt(t, i, ds);
      assert ds[0] in "0123456789";
      DigitsRead(t, i + 1, ds[1..]);
    }
  }

  lemma SomeDigits(t: string, i: nat, ds: string)
    requires At(t, i, ds) && DigitsOnly(ds)
    ensures i < |t| && Digit(t[i]) && t[i] == ds[0] && At(t, i + 1, ds[1..]) && AllDigits(ds[1..]) && i + |ds| <= |t|
  {
    Fits(t, i, ds);
    hide At;
    HeadAt(t, i, ds);
    assert ds[0] in "0123456789";
  }

  lemma WholeRead(t: string, i: nat, whole: string)
    requires At(t, i, whole) && DigitsOnly(whole) && (whole[0] == '0' ==> |whole| == 1)
    requires i + |whole| < |t| ==> !Digit(t[i + |whole|])
    ensures i < |t| && Digit(t[i])
    ensures (if t[i] == '0' then i + 1 else DigitsEnd(t, i + 1)) == i + |whole|
  {
    hide At, DigitsOnly, DigitsEnd;
    SomeDigits(t, i, whole);
    assert whole != "" by { Nonempty(whole); }
    DigitsRead(t, i + 1, whole[1..]);
  }

  lemma Nonempty(ds: string)
    requires DigitsOnly(ds)
    ensures ds != ""
  {
  }

  lemma FractionRead(t: string, i: nat, fraction: Option<string>)
    requires At(t, i, SpelledFraction(fraction)) && (fraction.Some? ==> DigitsOnly(fraction.value))
    requires var e := i + |SpelledFraction(fraction)|; e <= |t| && (e < |t| ==> !Digit(t[e]) && t[e] != '.')
    ensures FractionEnd(t, i) == i + |SpelledFraction(fraction)|
  {
    hide At, DigitsOnly, DigitsEnd;
    if fraction.Some? {
      var ds := fraction.value;
      Parts(t, i, ".", ds);
      CharAt(t, i, ".", 0);
      Nonempty(ds);
      SomeDigits(t, i + 1, ds);
      DigitsRead(t, i + 2, ds[1..]);
    }
  }

  lemma ExponentRead(t: string, i: nat, x: Option<Exponent>)
    requires At(t, i, SpelledExponent(x)) && i + |SpelledExponent(x)| <= |t|
    requires x.Some? ==> x.value.letter in "eE" && x.value.sign in ["", "+", "-"] && DigitsOnly(x.value.digits)
    requires var e := i + |SpelledExponent(x)|; e < |t| ==> !Digit(t[e]) && t[e] != 'e' && t[e] != 'E'
    ensures ExponentEnd(t, i) == i + |SpelledExponent(x)|
  {
    hide At, DigitsOnly, DigitsEnd;
    if x.Some? {
      var sign, ds := x.value.sign, x.value.digits;
      Parts(t, i, [x.value.letter], sign + ds);
      CharAt(t, i, [x.value.letter], 0);
      Parts(t, i + 1, sign, ds);
      var d := i + 1 + |sign|;
      Nonempty(ds);
      SomeDigits(t, d, ds);
      if sign != "" {
        CharAt(t, i + 1, sign, 0);
        assert |sign| == 1;
      }
      ExponentDigits(t, i, d, ds);
    }
  }

  lemma ExponentDigits(t: string, i: nat, d: nat, ds: string)
    requires i + 1 < |t| && (t[i] == 'e' || t[i] == 'E') && At(t, d, ds) && DigitsOnly(ds) && d + |ds| <= |t|
    requires if d == i + 2 then t[i + 1] == '+' || t[i + 1] == '-' else d == i + 1
    requires d + |ds| < |t| ==> !Digit(t[d + |ds|])
    ensures ExponentEnd(t, i) == d + |ds|
  {
    SomeDigits(t, d, ds);
    hide At, DigitsEnd;
    DigitsRead(t, d, ds);
  }

  lemma NumeralParts(t: string, i: nat, n: Numeral)
    requires At(t, i, SpelledNumeral(n))
    ensures var w := i + |SpelledSign(n.negative)|;
            var f := w + |n.whole|;
            var x := f + |SpelledFraction(n.fraction)|;
            var e := x + |SpelledExponent(n.exponent)|;
            && At(t, i, SpelledSign(n.negative)) && At(t, w, n.whole) && At(t, f, SpelledFraction(n.fraction))
            && At(t, x, SpelledExponent(n.exponent)) && e == i + |SpelledNumeral(n)| <= |t|
  {
    hide At, SpelledSign, SpelledFraction, SpelledExponent;
    var sign, dot, exp := SpelledSign(n.negative), SpelledFraction(n.fraction), SpelledExponent(n.exponent);
    Parts(t, i, sign, n.whole + (dot + exp));
    Parts(t, i + |sign|, n.whole, dot + exp);
    Parts(t, i + |sign| + |n.whole|, dot, exp);
  }

  // Neither an exponent nor what ends a number goes on with a fraction.
  lemma BeforeExponent(t: string, x: nat, exponent: Option<Exponent>)
    requires At(t, x, SpelledExponent(exponent)) && (exponent.Some? ==> exponent.value.letter in "eE")
    requires var e := x + |SpelledExponent(exponent)|; e < |t| ==> !NumberTail(t[e])
    ensures x < |t| ==> !Digit(t[x]) && t[x] != '.'
  {
    hide At;
    if exponent.Some? {
      CharAt(t, x, SpelledExponent(exponent), 0);
    }
  }

  lemma BeforeFraction(t: string, f: nat, fraction: Option<string>)
    requires At(t, f, SpelledFraction(fraction))
    requires var x := f + |SpelledFraction(fraction)|; x < |t| ==> !Digit(t[x])
    ensures f < |t| ==> !Digit(t[f])
  {
    hide At;
    if fraction.Some? {
      CharAt(t, f, SpelledFraction(fraction), 0);
    }
  }

  lemma AfterSign(t: string, i: nat, negative: bool)
    requires At(t, i, SpelledSign(negative)) && i + |SpelledSign(negative)| < |t| && Digit(t[i + |SpelledSign(negative)|])
    ensures IntStart(t, i) == i + |SpelledSign(negative)|
  {
    hide At;
    if negative {
      CharAt(t, i, "-", 0);
    }
  }

  lemma {:induction false} NumeralEnds(t: string, i: nat, n: Numeral)
    requires NumeralOk(n) && At(t, i, SpelledNumeral(n))
    requires i + |SpelledNumeral(n)| < |t| ==> !NumberTail(t[i + |SpelledNumeral(n)|])
    ensures i < |t| && NumberEnd(t, i) == Some(i + |SpelledNumeral(n)|)
    ensures t[i] == '-' ==> i + 1 < |t| && Digit(t[i + 1])
  {
    hide At, DigitsEnd, DigitsOnly, FractionEnd, ExponentEnd, SpelledFraction, SpelledExponent, SpelledNumeral,
         SpelledSign;
    NumeralParts(t, i, n);
    var w := i + |SpelledSign(n.negative)|;
    var f := w + |n.whole|;
    var x := f + |SpelledFraction(n.fraction)|;
    BeforeExponent(t, x, n.exponent);
    BeforeFraction(t, f, n.fraction);
    WholeRead(t, w, n.whole);
    FractionRead(t, f, n.fraction);
    ExponentRead(t, x, n.exponent);
    AfterSign(t, i, n.negative);
  }

  lemma Spelling(t: string, i: nat, s: string)
    requires At(t, i, s) && i < |t| && NumberEnd(t, i) == Some(i + |s|)
    ensures ScanNumber(t, i) == Done(Number(s), i + |s|)
  {
    hide NumberEnd;
  }

  lemma {:induction false} NumeralRead(t: string, i: nat, n: Numeral)
    requires NumeralOk(n) && At(t, i, SpelledNumeral(n))
    requires i + |SpelledNumeral(n)| < |t| ==> !NumberTail(t[i + |SpelledNumeral(n)|])
    ensures ScanValue(t, i) == Done(Number(SpelledNumeral(n)), i + |SpelledNumeral(n)|)
  {
    hide At, NumberEnd, SpelledNumeral, NumeralOk, ScanValue, ScanNumber;
    NumeralEnds(t, i, n);
    Spelling(t, i, SpelledNumeral(n));
    ScanOfNumber(t, i);
  }

  // ---------- documents ----------

  // How a document starts: with no white space and none of the marks that end something.
  predicate Starts(s: string) {
    s != "" && !JsonSpace(s[0]) && s[0] != ']' && s[0] != '}' && s[0] != ','
  }

  lemma NumeralStart(n: Numeral)
    requires NumeralOk(n)
    ensures Starts(SpelledNumeral(n))
  {
    hide SpelledFraction, SpelledExponent;
    var tail := SpelledFraction(n.fraction) + SpelledExponent(n.exponent);
    assert (n.whole + tail)[0] == n.whole[0] && n.whole[0] in "0123456789";
    assert n.negative ==> SpelledNumeral(n)[0] == '-';
    assert !n.negative ==> SpelledNumeral(n) == n.whole + tail;
  }

  lemma BracketStart(open: string, rest: string)
    requires |open| == 1 && Starts(open)
    ensures Starts(open + rest)
  {
  }

  lemma DocStart(d: Doc)
    requires DocOk(d)
    ensures Starts(Spelled(d))
  {
    hide Starts, SpelledSlots, SpelledEntries, SpelledPieces, SpelledNumeral, NumeralOk, PiecesOk;
    match d {
      case Literal(w) => WordStart(w);
      case Numeric(n) => NumeralStart(n);
      case Quoted(ps) => QuoteStart(ps);
      case List(inner, slots) =>
        Marks();
        BracketStart("[", (if slots == [] then inner else SpelledSlots(slots)) + "]");
      case Dict(inner, entries) =>
        Marks();
        BracketStart("{", (if entries == [] then inner else SpelledEntries(entries)) + "}");
    }
  }

  lemma Marks()
    ensures Starts("[") && Starts("{")
  {
  }

  lemma WordStart(w: Word)
    ensures Starts(SpelledWord(w))
  {
  }

  lemma QuoteStart(ps: seq<Piece>)
    requires PiecesOk(ps)
    ensures Starts(SpelledString(ps)) && SpelledString(ps)[0] == '"'
  {
    hide SpelledPieces;
  }

  // What may follow: anything, unless it could go on with a number.
  predicate Ends(t: string, e: nat) {
    e < |t| ==> !NumberTail(t[e])
  }

  lemma ValueParts(t: string, i: nat, after: string, doc: string, trail: string, more: string)
    requires At(t, i, after + (doc + (trail + more)))
    ensures var p := i + |after|;
            var q := p + |doc|;
            var c := q + |trail|;
            At(t, i, after) && At(t, p, doc) && At(t, q, trail) && At(t, c, more) && c + |more| <= |t|
  {
    hide At;
    Parts(t, i, after, doc + (trail + more));
    Parts(t, i + |after|, doc, trail + more);
    Parts(t, i + |after| + |doc|, trail, more);
  }

  lemma CommaParts(t: string, c: nat, rest: string)
    requires At(t, c, "," + rest)
    ensures c < |t| && t[c] == ',' && At(t, c + 1, rest) && |"," + rest| == 1 + |rest|
  {
    hide At;
    Parts(t, c, ",", rest);
    CharAt(t, c, ",", 0);
  }

  // What follows the first slot.
  function MoreSlots(slots: seq<Slot>): string
    requires slots != [] && forall k :: 0 <= k < |slots| ==> DocOk(slots[k].doc)
  {
    if |slots| == 1 then "" else "," + SpelledSlots(slots[1..])
  }

  lemma SlotSpelled(slots: seq<Slot>)
    requires slots != [] && forall k :: 0 <= k < |slots| ==> DocOk(slots[k].doc)
    ensures var s := slots[0];
            && SpelledSlots(slots) == s.lead + (Spelled(s.doc) + (s.trail + MoreSlots(slots)))
            && |SpelledSlots(slots)| == |s.lead| + |Spelled(s.doc)| + |s.trail| + |MoreSlots(slots)|
  {
    hide Spelled, DocOk;
  }

  // Where the parts of a list of values stand.
  lemma SlotParts(t: string, i: nat, slots: seq<Slot>)
    requires slots != [] && (forall k :: 0 <= k < |slots| ==> DocOk(slots[k].doc)) && At(t, i, SpelledSlots(slots))
    ensures var s := slots[0];
            var p := i + |s.lead|;
            var q := p + |Spelled(s.doc)|;
            var c := q + |s.trail|;
            && At(t, i, s.lead) && At(t, p, Spelled(s.doc)) && At(t, q, s.trail) && c <= |t|
            && if |slots| == 1 then c == i + |SpelledSlots(slots)|
               else c < |t| && t[c] == ',' && At(t, c + 1, SpelledSlots(slots[1..]))
                    && c + 1 + |SpelledSlots(slots[1..])| == i + |SpelledSlots(slots)|
  {
    hide At, Spelled, DocOk, SpelledSlots;
    var s := slots[0];
    SlotSpelled(slots);
    ValueParts(t, i, s.lead, Spelled(s.doc), s.trail, MoreSlots(slots));
    if |slots| > 1 {
      CommaParts(t, i + |s.lead| + |Spelled(s.doc)| + |s.trail|, SpelledSlots(slots[1..]));
    }
  }

  lemma SpacesEnd(t: string, i: nat, ws: string)
    requires At(t, i, ws) && Spaces(ws) && Ends(t, i + |ws|)
    ensures Ends(t, i)
  {
    hide At;
    if ws != "" {
      CharAt(t, i, ws, 0);
      assert ws[0] in " \t\n\r";
    }
  }

  lemma {:induction false} DocRead(t: string, i: nat, d: Doc)
    requires DocOk(d) && At(t, i, Spelled(d)) && (d.Numeric? ==> Ends(t, i + |Spelled(d)|))
    ensures ScanValue(t, i) == Done(Meaning(d), i + |Spelled(d)|)
    decreases d, 0
  {
    hide At, ScanValue, Meanings, MemberMeanings, CodesOf, SpelledSlots, SpelledEntries, SpelledPieces,
         SpelledNumeral, NumeralOk;
    match d {
      case Literal(w) => WordRead(t, i, w);
      case Numeric(n) => NumeralRead(t, i, n);
      case Quoted(ps) => QuotedRead(t, i, ps);
      case List(inner, slots) => ListRead(t, i, inner, slots);
      case Dict(inner, entries) => DictRead(t, i, inner, entries);
    }
  }

  lemma {:induction false} QuotedRead(t: string, i: nat, ps: seq<Piece>)
    requires PiecesOk(ps) && At(t, i, SpelledString(ps))
    ensures ScanValue(t, i) == Done(Str(CodesOf(ps)), i + |SpelledString(ps)|)
    ensures i < |t| && t[i] == '"' && ScanString(t, i + 1) == Done(CodesOf(ps), i + |SpelledString(ps)|)
  {
    hide At, ScanString, SpelledPieces, CodesOf;
    PiecesEach(ps);
    hide PiecesOk;
    var s := SpelledPieces(ps);
    Parts(t, i, "\"", s + "\"");
    Parts(t, i + 1, s, "\"");
    CharAt(t, i, "\"", 0);
    CharAt(t, i + 1 + |s|, "\"", 0);
    PiecesRead(t, i + 1, ps);
  }

  // What stands between two brackets.
  lemma Bracketed(t: string, i: nat, open: string, body: string, close: string)
    requires |open| == 1 && |close| == 1 && At(t, i, open + (body + close))
    ensures i < |t| && t[i] == open[0] && At(t, i + 1, body) && i + 1 + |body| < |t| && t[i + 1 + |body|] == close[0]
  {
    hide At;
    Parts(t, i, open, body + close);
    Parts(t, i + 1, body, close);
    CharAt(t, i, open, 0);
    CharAt(t, i + 1 + |body|, close, 0);
  }

  lemma {:induction false} ListRead(t: string, i: nat, inner: string, slots: seq<Slot>)
    requires DocOk(List(inner, slots)) && At(t, i, Spelled(List(inner, slots)))
    ensures ScanValue(t, i) == Done(Array(Meanings(slots)), i + |Spelled(List(inner, slots))|)
    decreases slots, 2
  {
    hide At, ScanItems, SpelledSlots, SkipSpace;
    var body := if slots == [] then inner else SpelledSlots(slots);
    assert Spelled(List(inner, slots)) == "[" + (body + "]");
    Bracketed(t, i, "[", body, "]");
    if slots == [] {
      SpacesSkipped(t, i + 1, inner);
    } else {
      SlotsRead(t, i + 1, slots);
    }
  }

  lemma MeaningsHead(slots: seq<Slot>)
    requires slots != [] && forall k :: 0 <= k < |slots| ==> DocOk(slots[k].doc)
    ensures |slots| == 1 ==> Meanings(slots) == [Meaning(slots[0].doc)]
    ensures Meanings(slots) == [Meaning(slots[0].doc)] + Meanings(slots[1..])
  {
    hide Meaning, DocOk;
  }

  lemma MembersHead(entries: seq<Entry>)
    requires entries != [] && EntriesOk(entries)
    ensures var head := Member(CodesOf(entries[0].key), Meaning(entries[0].doc));
            && (|entries| == 1 ==> MemberMeanings(entries) == [head])
            && MemberMeanings(entries) == [head] + MemberMeanings(entries[1..])
  {
    hide Meaning, DocOk, CodesOf;
    if |entries| == 1 {
      assert entries[1..] == [];
    }
  }

  predicate SlotsOk(slots: seq<Slot>) {
    forall k :: 0 <= k < |slots| ==> Spaces(slots[k].lead) && DocOk(slots[k].doc) && Spaces(slots[k].trail)
  }

  lemma {:induction false} SlotsRead(t: string, i: nat, slots: seq<Slot>)
    requires slots != [] && SlotsOk(slots)
    requires At(t, i, SpelledSlots(slots))
    requires i + |SpelledSlots(slots)| < |t| && t[i + |SpelledSlots(slots)|] == ']'
    ensures SkipSpace(t, i) == i + |slots[0].lead| < |t| && t[i + |slots[0].lead|] != ']'
    ensures ScanItems(t, i + |slots[0].lead|) == Done(Meanings(slots), i + |SpelledSlots(slots)| + 1)
    decreases slots, 1
  {
    hide At, Spelled, ScanValue, SkipSpace, SpelledSlots, DocOk, Meaning, Meanings, Spaces;
    SlotParts(t, i, slots);
    var s := slots[0];
    var p := i + |s.lead|;
    var q := p + |Spelled(s.doc)|;
    var c := q + |s.trail|;
    DocStart(s.doc);
    CharAt(t, p, Spelled(s.doc), 0);
    SpacesSkipped(t, i, s.lead);
    SpacesSkipped(t, q, s.trail);
    SpacesEnd(t, q, s.trail);
    DocRead(t, p, s.doc);
    MeaningsHead(slots);
    if |slots| > 1 {
      SlotsRead(t, c + 1, slots[1..]);
    }
  }

  predicate EntriesOk(entries: seq<Entry>) {
    forall k :: 0 <= k < |entries| ==>
      && Spaces(entries[k].lead) && PiecesOk(entries[k].key) && Spaces(entries[k].beforeColon)
      && Spaces(entries[k].afterColon) && DocOk(entries[k].doc) && Spaces(entries[k].trail)
  }

  // Where the parts of an entry stand: the key at `key`, the colon at `colon`, the value at
  // `doc`, and what follows at `end`.
  datatype Places = Places(key: nat, before: nat, colon: nat, doc: nat, trail: nat, end: nat)

  function PlacesOf(i: nat, e: Entry): Places
    requires PiecesOk(e.key) && DocOk(e.doc)
  {
    var key := i + |e.lead|;
    var before := key + |SpelledString(e.key)|;
    var colon := before + |e.beforeColon|;
    var doc := colon + 1 + |e.afterColon|;
    var trail := doc + |Spelled(e.doc)|;
    Places(key, before, colon, doc, trail, trail + |e.trail|)
  }

  lemma KeyParts(t: string, i: nat, lead: string, key: string, before: string, rest: string)
    requires At(t, i, lead + (key + (before + (":" + rest))))
    ensures var k := i + |lead|;
            var b := k + |key|;
            var c := b + |before|;
            At(t, i, lead) && At(t, k, key) && At(t, b, before) && c < |t| && t[c] == ':' && At(t, c + 1, rest)
  {
    hide At;
    Parts(t, i, lead, key + (before + (":" + rest)));
    Parts(t, i + |lead|, key, before + (":" + rest));
    Parts(t, i + |lead| + |key|, before, ":" + rest);
    Parts(t, i + |lead| + |key| + |before|, ":", rest);
    CharAt(t, i + |lead| + |key| + |before|, ":", 0);
  }

  function More(entries: seq<Entry>): string
    requires entries != [] && EntriesOk(entries)
  {
    if |entries| == 1 then "" else "," + SpelledEntries(entries[1..])
  }

  function FromValue(entries: seq<Entry>): string
    requires entries != [] && EntriesOk(entries)
  {
    var e := entries[0];
    e.afterColon + (Spelled(e.doc) + (e.trail + More(entries)))
  }

  lemma EntrySpelled(entries: seq<Entry>)
    requires entries != [] && EntriesOk(entries)
    ensures var e := entries[0];
            PiecesOk(e.key) && SpelledEntries(entries) == e.lead + (SpelledString(e.key) + (e.beforeColon + (":" + FromValue(entries))))
  {
    hide Spelled, SpelledString, DocOk, PiecesOk, Spaces;
  }

  lemma EntryParts(t: string, i: nat, entries: seq<Entry>)
    requires entries != [] && EntriesOk(entries)
    requires At(t, i, SpelledEntries(entries))
    ensures var e := entries[0];
            var at := PlacesOf(i, e);
            && At(t, i, e.lead) && At(t, at.key, SpelledString(e.key)) && At(t, at.before, e.beforeColon)
            && at.colon < |t| && t[at.colon] == ':' && At(t, at.colon + 1, e.afterColon) && At(t, at.doc, Spelled(e.doc))
            && At(t, at.trail, e.trail) && at.end <= |t|
            && if |entries| == 1 then at.end == i + |SpelledEntries(entries)|
               else at.end < |t| && t[at.end] == ',' && At(t, at.end + 1, SpelledEntries(entries[1..]))
                    && at.end + 1 + |SpelledEntries(entries[1..])| == i + |SpelledEntries(entries)|
  {
    hide At, Spelled, SpelledString, SpelledEntries, DocOk, PiecesOk, Spaces, More, FromValue;
    var e := entries[0];
    PiecesEach(e.key);
    var at := PlacesOf(i, e);
    EntrySpelled(entries);
    KeyParts(t, i, e.lead, SpelledString(e.key), e.beforeColon, FromValue(entries));
    FromValueParts(t, at.colon + 1, entries);
    MoreParts(t, at.end, entries);
    EntryLength(i, entries);
  }

  lemma FromValueParts(t: string, i: nat, entries: seq<Entry>)
    requires entries != [] && EntriesOk(entries)
    requires At(t, i, FromValue(entries))
    ensures var e := entries[0];
            var p := i + |e.afterColon|;
            var q := p + |Spelled(e.doc)|;
            var c := q + |e.trail|;
            && At(t, i, e.afterColon) && At(t, p, Spelled(e.doc)) && At(t, q, e.trail)
            && At(t, c, More(entries)) && c + |More(entries)| <= |t|
  {
    hide At, Spelled, SpelledString, SpelledEntries, DocOk, PiecesOk, Spaces, More;
    var e := entries[0];
    ValueParts(t, i, e.afterColon, Spelled(e.doc), e.trail, More(entries));
  }

  lemma MoreParts(t: string, c: nat, entries: seq<Entry>)
    requires entries != [] && EntriesOk(entries)
    requires At(t, c, More(entries)) && c + |More(entries)| <= |t|
    ensures if |entries| == 1 then |More(entries)| == 0
            else c < |t| && t[c] == ',' && At(t, c + 1, SpelledEntries(entries[1..]))
                 && |More(entries)| == 1 + |SpelledEntries(entries[1..])|
  {
    hide At, Spelled, SpelledString, SpelledEntries, DocOk, PiecesOk, Spaces;
    if |entries| > 1 {
      CommaParts(t, c, SpelledEntries(entries[1..]));
    }
  }

  lemma EntryLength(i: nat, entries: seq<Entry>)
    requires entries != [] && EntriesOk(entries)
    ensures PiecesOk(entries[0].key) && DocOk(entries[0].doc)
    ensures PlacesOf(i, entries[0]).end + |More(entries)| == i + |SpelledEntries(entries)|
  {
    hide Spelled, SpelledString, SpelledEntries, DocOk, PiecesOk, Spaces, More;
    EntrySpelled(entries);
    var e := entries[0];
    PiecesEach(e.key);
    Lengths(e.lead, SpelledString(e.key), e.beforeColon, e.afterColon, Spelled(e.doc), e.trail, More(entries));
  }

  lemma Lengths(lead: string, key: string, before: string, after: string, doc: string, trail: string, more: string)
    ensures |lead + (key + (before + (":" + (after + (doc + (trail + more))))))|
            == |lead| + |key| + |before| + 1 + |after| + |doc| + |trail| + |more|
  {
  }

  lemma {:induction false} DictRead(t: string, i: nat, inner: string, entries: seq<Entry>)
    requires DocOk(Dict(inner, entries)) && At(t, i, Spelled(Dict(inner, entries)))
    ensures ScanValue(t, i) == Done(Object(MemberMeanings(entries)), i + |Spelled(Dict(inner, entries))|)
    decreases entries, 2
  {
    hide At, ScanMembers, SpelledEntries, SkipSpace;
    var body := if entries == [] then inner else SpelledEntries(entries);
    assert Spelled(Dict(inner, entries)) == "{" + (body + "}");
    Bracketed(t, i, "{", body, "}");
    if entries == [] {
      SpacesSkipped(t, i + 1, inner);
    } else {
      EntriesRead(t, i + 1, entries);
    }
  }

  lemma {:induction false} KeyIsRead(t: string, i: nat, e: Entry)
    requires PiecesOk(e.key) && DocOk(e.doc) && Spaces(e.beforeColon) && Spaces(e.afterColon)
    requires var at := PlacesOf(i, e);
             && At(t, at.key, SpelledString(e.key)) && At(t, at.before, e.beforeColon)
             && at.colon < |t| && t[at.colon] == ':' && At(t, at.colon + 1, e.afterColon)
             && at.doc < |t| && !JsonSpace(t[at.doc])
    ensures ScanKey(t, PlacesOf(i, e).key) == Done(CodesOf(e.key), PlacesOf(i, e).doc)
  {
    hide At, ScanString, ScanValue, SkipSpace, SpelledString, Spelled, PiecesOk, DocOk, Spaces, CodesOf;
    var at := PlacesOf(i, e);
    QuotedRead(t, at.key, e.key);
    SpacesSkipped(t, at.before, e.beforeColon);
    SpacesSkipped(t, at.colon + 1, e.afterColon);
  }

  lemma {:induction false} EntriesRead(t: string, i: nat, entries: seq<Entry>)
    requires entries != [] && EntriesOk(entries)
    requires At(t, i, SpelledEntries(entries))
    requires i + |SpelledEntries(entries)| < |t| && t[i + |SpelledEntries(entries)|] == '}'
    ensures SkipSpace(t, i) == i + |entries[0].lead| < |t| && t[i + |entries[0].lead|] == '"'
    ensures ScanMembers(t, i + |entries[0].lead|) == Done(MemberMeanings(entries), i + |SpelledEntries(entries)| + 1)
    decreases entries, 1
  {
    hide At, Spelled, ScanValue, SkipSpace, SpelledEntries, SpelledString, ScanKey, DocOk, PiecesOk, Meaning,
         MemberMeanings, CodesOf;
    hide Spaces;
    EntryParts(t, i, entries);
    var e := entries[0];
    PiecesEach(e.key);
    var at := PlacesOf(i, e);
    QuoteStart(e.key);
    CharAt(t, at.key, SpelledString(e.key), 0);
    DocStart(e.doc);
    CharAt(t, at.doc, Spelled(e.doc), 0);
    SpacesSkipped(t, i, e.lead);
    KeyIsRead(t, i, e);
    SpacesSkipped(t, at.trail, e.trail);
    SpacesEnd(t, at.trail, e.trail);
    DocRead(t, at.doc, e.doc);
    MembersHead(entries);
    if |entries| > 1 {
      EntriesRead(t, at.end + 1, entries[1..]);
    }
  }

  lemma Front(s: string, rest: string)
    requires s != "" && (rest != "" ==> !NumberTail(rest[0]))
    ensures At(s + rest, 0, s) && Ends(s + rest, |s|)
  {
    assert (s + rest)[0..|s|] == s;
  }

  // Any document, before anything that does not go on with a number, is read as what it
  // stands for, and the scan ends where it ends.
  lemma {:induction false} DocumentIsRead(d: Doc, rest: string)
    requires DocOk(d) && (rest != "" ==> !NumberTail(rest[0]))
    ensures ScanValue(Spelled(d) + rest, 0) == Done(Meaning(d), |Spelled(d)|)
  {
    hide Spelled, DocOk, Meaning, ScanValue, At, Ends;
    DocStart(d);
    Front(Spelled(d), rest);
    DocRead(Spelled(d) + rest, 0, d);
  }
}
