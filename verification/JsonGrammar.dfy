/** The scanner accepts nothing but documents: whatever it reads was a spelling of its value. */
module JsonGrammar {
  import opened Prelude
  import opened JsonScanner
  import opened JsonWriter
  import opened JsonRoundTrip

  lemma Joined(t: string, i: nat, a: string, b: string)
    requires At(t, i, a) && At(t, i + |a|, b)
    ensures At(t, i, a + b)
  {
    assert t[i..i + |a| + |b|] == t[i..i + |a|] + t[i + |a|..i + |a| + |b|];
  }

  lemma Slice(t: string, i: nat, e: nat)
    requires i <= e <= |t|
    ensures At(t, i, t[i..e]) && i + |t[i..e]| == e
  {
  }

  lemma OneChar(t: string, i: nat, s: string)
    requires |s| == 1 && i < |t| && t[i] == s[0]
    ensures At(t, i, s)
  {
    assert t[i..i + 1] == s;
  }

  lemma TwoChars(t: string, i: nat, s: string)
    requires |s| == 2 && i + 1 < |t| && t[i] == s[0] && t[i + 1] == s[1]
    ensures At(t, i, s)
  {
    assert t[i..i + 2] == s;
  }

  lemma FourChars(t: string, i: nat, s: string)
    requires |s| == 4 && i + 3 < |t| && t[i] == s[0] && t[i + 1] == s[1] && t[i + 2] == s[2] && t[i + 3] == s[3]
    ensures At(t, i, s)
  {
    assert t[i..i + 4] == s;
  }

  lemma {:induction false} SpacesBefore(t: string, i: nat)
    requires i <= |t|
    ensures Spaces(t[i..SkipSpace(t, i)])
    decreases |t| - i
  {
    if i < |t| && JsonSpace(t[i]) {
      SpacesBefore(t, i + 1);
      assert t[i..SkipSpace(t, i)] == [t[i]] + t[i + 1..SkipSpace(t, i)];
    }
  }

  // ---------- strings ----------

  lemma DigitWritten(c: char) returns (d: int, upper: bool)
    requires HexDigit(c).Some?
    ensures 0 <= d < 16 && HexDigit(c) == Some(d) && HexChar(d, upper) == c
  {
    d := HexDigit(c).value;
    upper := 'A' <= c <= 'F';
    assert LOWER == ['0', '1', '2', '3', '4', '5', '6', '7', '8', '9', 'a', 'b', 'c', 'd', 'e', 'f'];
    assert UPPER == ['0', '1', '2', '3', '4', '5', '6', '7', '8', '9', 'A', 'B', 'C', 'D', 'E', 'F'];
  }

  lemma DigitsOf(a: int, b: int, c: int, d: int)
    requires 0 <= a < 16 && 0 <= b < 16 && 0 <= c < 16 && 0 <= d < 16
    ensures var n := ((a * 16 + b) * 16 + c) * 16 + d;
            && 0 <= n <= 0xFFFF && n / 0x1000 == a && n / 0x100 % 0x10 == b && n / 0x10 % 0x10 == c && n % 0x10 == d
  {
  }

  lemma QuadWritten(t: string, i: nat) returns (upper: Cases)
    requires HexQuad(t, i).Some?
    ensures 0 <= HexQuad(t, i).value <= 0xFFFF && At(t, i, Hex(HexQuad(t, i).value, upper))
  {
    hide HexDigit, HexChar, At;
    var a, ua := DigitWritten(t[i]);
    var b, ub := DigitWritten(t[i + 1]);
    var c, uc := DigitWritten(t[i + 2]);
    var d, ud := DigitWritten(t[i + 3]);
    DigitsOf(a, b, c, d);
    upper := Cases(ua, ub, uc, ud);
    FourChars(t, i, Hex(HexQuad(t, i).value, upper));
  }

  lemma UnitWritten(t: string, i: nat) returns (upper: Cases)
    requires i + 1 < |t| && t[i] == '\\' && t[i + 1] == 'u' && HexQuad(t, i + 2).Some?
    ensures var n := HexQuad(t, i + 2).value; 0 <= n <= 0xFFFF && At(t, i, "\\u" + Hex(n, upper))
  {
    hide HexQuad, At, Hex;
    upper := QuadWritten(t, i + 2);
    TwoChars(t, i, "\\u");
    Joined(t, i, "\\u", Hex(HexQuad(t, i + 2).value, upper));
  }

  lemma PairOf(hi: int, lo: int)
    requires 0xD800 <= hi <= 0xDBFF && 0xDC00 <= lo <= 0xDFFF
    ensures var n := 0x10000 + (hi - 0xD800) * 0x400 + (lo - 0xDC00);
            0x10000 <= n <= 0x10FFFF && High(n) == hi && Low(n) == lo
  {
  }

  lemma TwoUnits(t: string, i: nat, a: string, b: string)
    requires |a| == 4 && At(t, i, "\\u" + a) && At(t, i + 6, "\\u" + b)
    ensures At(t, i, "\\u" + (a + ("\\u" + b)))
  {
    hide At;
    Joined(t, i, "\\u" + a, "\\u" + b);
    assert ("\\u" + a) + ("\\u" + b) == "\\u" + (a + ("\\u" + b));
  }

  lemma PairWritten(t: string, i: nat) returns (p: Piece)
    requires i + 7 < |t| && t[i] == '\\' && t[i + 1] == 'u' && t[i + 6] == '\\' && t[i + 7] == 'u'
    requires HexQuad(t, i + 2).Some? && 0xD800 <= HexQuad(t, i + 2).value <= 0xDBFF
    requires HexQuad(t, i + 8).Some? && 0xDC00 <= HexQuad(t, i + 8).value <= 0xDFFF
    ensures p.Pair? && p.n == 0x10000 + (HexQuad(t, i + 2).value - 0xD800) * 0x400 + (HexQuad(t, i + 8).value - 0xDC00)
    ensures PieceOk(p) && At(t, i, SpelledPiece(p))
  {
    hide HexQuad, At, Hex, High, Low;
    var hi, lo := HexQuad(t, i + 2).value, HexQuad(t, i + 8).value;
    var high := UnitWritten(t, i);
    var low := UnitWritten(t, i + 6);
    PairOf(hi, lo);
    p := Pair(0x10000 + (hi - 0xD800) * 0x400 + (lo - 0xDC00), high, low);
    TwoUnits(t, i, Hex(hi, high), Hex(lo, low));
  }

  // One escape; a code unit is no first half with the second half behind it.
  lemma {:induction false} EscapeWritten(t: string, i: nat) returns (p: Piece)
    requires i < |t| && t[i] == '\\' && ScanEscape(t, i).Done?
    ensures PieceOk(p) && !p.Plain? && CodeOf(p) == ScanEscape(t, i).value
    ensures At(t, i, SpelledPiece(p)) && i + |SpelledPiece(p)| == ScanEscape(t, i).end
    ensures p.Unit? && 0xD800 <= p.n <= 0xDBFF ==> NoLowNext(t, i + 6)
  {
    hide At, HexQuad, Hex, High, Low;
    if t[i + 1] != 'u' {
      p := Short(t[i + 1]);
      TwoChars(t, i, ['\\', t[i + 1]]);
    } else if i + 7 < |t| && t[i + 6] == '\\' && t[i + 7] == 'u' && 0xD800 <= HexQuad(t, i + 2).value <= 0xDBFF
           && 0xDC00 <= HexQuad(t, i + 8).value <= 0xDFFF {
      p := PairWritten(t, i);
      PieceLength(p);
    } else {
      var upper := UnitWritten(t, i);
      p := Unit(HexQuad(t, i + 2).value, upper);
      PieceLength(p);
    }
  }

  lemma {:induction false} StringWritten(t: string, i: nat) returns (ps: seq<Piece>)
    requires i <= |t| && ScanString(t, i).Done?
    ensures PiecesOk(ps) && EachOk(ps) && CodesOf(ps) == ScanString(t, i).value
    ensures At(t, i, SpelledPieces(ps)) && i + |SpelledPieces(ps)| + 1 == ScanString(t, i).end
    ensures t[i + |SpelledPieces(ps)|] == '"'
    decreases |t| - i
  {
    hide At, ScanEscape, SpelledPiece;
    if t[i] == '"' {
      ps := [];
      Slice(t, i, i);
    } else {
      var p: Piece;
      var next: nat;
      if t[i] == '\\' {
        p := EscapeWritten(t, i);
        next := ScanEscape(t, i).end;
      } else {
        p, next := Plain(t[i]), i + 1;
        PieceLength(p);
        PlainAt(t, i);
      }
      var rest := StringWritten(t, next);
      hide ScanString, CodeOf;
      ps := [p] + rest;
      assert ps[1..] == rest;
      Joined(t, i, SpelledPiece(p), SpelledPieces(rest));
      NotSplit(t, i, p, rest);
      PieceBefore(p, rest);
    }
  }

  lemma PlainAt(t: string, i: nat)
    requires i < |t| && PieceOk(Plain(t[i]))
    ensures At(t, i, SpelledPiece(Plain(t[i])))
  {
    OneChar(t, i, [t[i]]);
  }

  lemma {:induction false} NotSplit(t: string, i: nat, p: Piece, rest: seq<Piece>)
    requires PieceOk(p) && EachOk(rest) && (p.Unit? && 0xD800 <= p.n <= 0xDBFF ==> NoLowNext(t, i + 6))
    requires var n := i + |SpelledPiece(p)|;
             At(t, n, SpelledPieces(rest)) && n + |SpelledPieces(rest)| < |t|
    ensures rest != [] && p.Unit? && rest[0].Unit? && 0xD800 <= p.n <= 0xDBFF ==> !(0xDC00 <= rest[0].n <= 0xDFFF)
  {
    hide At, SpelledPiece, HexQuad;
    PieceLength(p);
    if rest != [] && p.Unit? && rest[0].Unit? {
      PieceLength(rest[0]);
      Parts(t, i + 6, SpelledPiece(rest[0]), SpelledPieces(rest[1..]));
      UnitAlone(t, i + 6, rest[0].n, rest[0].upper);
    }
  }

  lemma PieceBefore(p: Piece, rest: seq<Piece>)
    requires PieceOk(p) && PiecesOk(rest)
    requires rest != [] && p.Unit? && rest[0].Unit? && 0xD800 <= p.n <= 0xDBFF ==> !(0xDC00 <= rest[0].n <= 0xDFFF)
    ensures PiecesOk([p] + rest)
  {
    hide PieceOk;
    var ps := [p] + rest;
    assert EachOk(ps);
    forall k | 0 <= k < |ps| - 1
      ensures !(ps[k].Unit? && ps[k + 1].Unit? && 0xD800 <= ps[k].n <= 0xDBFF && 0xDC00 <= ps[k + 1].n <= 0xDFFF)
    {
      if k > 0 {
        var j := k - 1;
        assert ps[k] == rest[j] && ps[k + 1] == rest[j + 1];
      }
    }
  }

  // ---------- numbers ----------

  lemma DigitIn(c: char)
    requires Digit(c)
    ensures c in "0123456789"
  {
    assert "0123456789" == ['0', '1', '2', '3', '4', '5', '6', '7', '8', '9'];
  }

  lemma DigitsWritten(t: string, i: nat, e: nat)
    requires i < e <= |t| && forall k :: i <= k < e ==> Digit(t[k])
    ensures DigitsOnly(t[i..e])
  {
    forall k | 0 <= k < |t[i..e]| ensures t[i..e][k] in "0123456789" {
      DigitIn(t[i + k]);
    }
  }

  lemma WholeWritten(t: string, i: nat) returns (whole: string)
    requires i < |t| && IntEnd(t, i).Some?
    ensures DigitsOnly(whole) && (whole[0] == '0' ==> |whole| == 1)
    ensures At(t, IntStart(t, i), whole) && IntStart(t, i) + |whole| == IntEnd(t, i).value
  {
    var j, e := IntStart(t, i), IntEnd(t, i).value;
    whole := t[j..e];
    DigitsWritten(t, j, e);
  }

  lemma FractionWritten(t: string, i: nat) returns (fraction: Option<string>)
    requires i <= |t|
    ensures fraction.Some? ==> DigitsOnly(fraction.value)
    ensures At(t, i, SpelledFraction(fraction)) && i + |SpelledFraction(fraction)| == FractionEnd(t, i)
  {
    var e := FractionEnd(t, i);
    if e == i {
      fraction := None;
      Slice(t, i, i);
    } else {
      DigitsWritten(t, i + 1, e);
      Slice(t, i + 1, e);
      OneChar(t, i, ".");
      hide At, DigitsOnly, DigitsEnd;
      fraction := Some(t[i + 1..e]);
      Joined(t, i, ".", t[i + 1..e]);
    }
  }

  // An exponent from its letter at i, with its digits in [m, e).
  lemma ExponentOf(t: string, i: nat, m: nat, e: nat) returns (x: Exponent)
    requires i + 1 <= m < e <= |t| && t[i] in "eE" && (forall k :: m <= k < e ==> Digit(t[k]))
    requires if m == i + 2 then t[i + 1] == '+' || t[i + 1] == '-' else m == i + 1
    ensures x.letter in "eE" && x.sign in ["", "+", "-"] && DigitsOnly(x.digits)
    ensures At(t, i, [x.letter] + (x.sign + x.digits)) && i + |[x.letter] + (x.sign + x.digits)| == e
  {
    DigitsWritten(t, m, e);
    Slice(t, m, e);
    Slice(t, i + 1, m);
    OneChar(t, i, [t[i]]);
    x := Exponent(t[i], t[i + 1..m], t[m..e]);
    assert x.sign == if m == i + 1 then "" else if t[i + 1] == '+' then "+" else "-";
    hide At, DigitsOnly;
    ThreeJoined(t, i, [x.letter], x.sign, x.digits);
  }

  lemma ExponentWritten(t: string, i: nat) returns (x: Option<Exponent>)
    requires i <= |t|
    ensures x.Some? ==> x.value.letter in "eE" && x.value.sign in ["", "+", "-"] && DigitsOnly(x.value.digits)
    ensures At(t, i, SpelledExponent(x)) && i + |SpelledExponent(x)| == ExponentEnd(t, i)
  {
    hide At, DigitsOnly;
    var e := ExponentEnd(t, i);
    if e == i {
      x := None;
      Slice(t, i, i);
    } else {
      var m := if i + 2 < |t| && (t[i + 1] == '+' || t[i + 1] == '-') then i + 2 else i + 1;
      var exponent := ExponentOf(t, i, m, e);
      x := Some(exponent);
    }
  }

  lemma FourJoined(t: string, i: nat, a: string, b: string, c: string, d: string)
    requires At(t, i, a) && At(t, i + |a|, b) && At(t, i + |a| + |b|, c) && At(t, i + |a| + |b| + |c|, d)
    ensures At(t, i, a + (b + (c + d))) && |a + (b + (c + d))| == |a| + |b| + |c| + |d|
  {
    hide At;
    Joined(t, i + |a| + |b|, c, d);
    Joined(t, i + |a|, b, c + d);
    Joined(t, i, a, b + (c + d));
  }

  lemma NumeralAt(t: string, i: nat, n: Numeral)
    requires At(t, i, SpelledSign(n.negative))
    requires var w := i + |SpelledSign(n.negative)|;
             var f := w + |n.whole|;
             At(t, w, n.whole) && At(t, f, SpelledFraction(n.fraction))
             && At(t, f + |SpelledFraction(n.fraction)|, SpelledExponent(n.exponent))
    ensures At(t, i, SpelledNumeral(n))
    ensures |SpelledNumeral(n)| ==
              |SpelledSign(n.negative)| + |n.whole| + |SpelledFraction(n.fraction)| + |SpelledExponent(n.exponent)|
  {
    hide At, SpelledSign, SpelledFraction, SpelledExponent;
    FourJoined(t, i, SpelledSign(n.negative), n.whole, SpelledFraction(n.fraction), SpelledExponent(n.exponent));
  }

  lemma ThreeEnds(t: string, i: nat)
    requires i < |t| && NumberEnd(t, i).Some?
    ensures IntEnd(t, i).Some? && NumberEnd(t, i) == Some(ExponentEnd(t, FractionEnd(t, IntEnd(t, i).value)))
  {
    hide IntEnd, FractionEnd, ExponentEnd;
  }

  lemma NumberWritten(t: string, i: nat) returns (n: Numeral)
    requires i < |t| && NumberEnd(t, i).Some?
    ensures NumeralOk(n) && At(t, i, SpelledNumeral(n)) && i + |SpelledNumeral(n)| == NumberEnd(t, i).value
  {
    hide At, DigitsOnly, IntEnd, FractionEnd, ExponentEnd, SpelledFraction, SpelledExponent, SpelledNumeral,
         NumberEnd, IntStart, SpelledSign;
    ThreeEnds(t, i);
    var f := IntEnd(t, i).value;
    var whole := WholeWritten(t, i);
    var fraction := FractionWritten(t, f);
    var exponent := ExponentWritten(t, FractionEnd(t, f));
    n := Numeral(t[i] == '-', whole, fraction, exponent);
    SignAt(t, i);
    NumeralAt(t, i, n);
  }

  lemma SignAt(t: string, i: nat)
    requires i < |t|
    ensures At(t, i, SpelledSign(t[i] == '-')) && i + |SpelledSign(t[i] == '-')| == IntStart(t, i)
  {
    if t[i] == '-' {
      OneChar(t, i, "-");
    } else {
      Slice(t, i, i);
    }
  }

  // ---------- values ----------

  lemma ScalarWritten(t: string, i: nat) returns (d: Doc)
    requires i < |t| && ScanScalar(t, i).Done?
    ensures DocOk(d) && Meaning(d) == ScanScalar(t, i).value
    ensures At(t, i, Spelled(d)) && i + |Spelled(d)| == ScanScalar(t, i).end
  {
    hide NumberEnd, SpelledNumeral, NumeralOk;
    match t[i] {
      case 'n' => d := Literal(NullWord);
      case 't' => d := Literal(TrueWord);
      case 'f' => d := Literal(FalseWord);
      case 'N' => d := Literal(NaNWord);
      case 'I' => d := Literal(InfinityWord);
      case _ =>
        if t[i] == '-' && Matches(t, i, "-Infinity") {
          d := Literal(MinusInfinityWord);
        } else {
          d := NumericWritten(t, i);
        }
    }
  }

  lemma NumericWritten(t: string, i: nat) returns (d: Doc)
    requires i < |t| && ScanNumber(t, i).Done?
    ensures DocOk(d) && Meaning(d) == ScanNumber(t, i).value
    ensures At(t, i, Spelled(d)) && i + |Spelled(d)| == ScanNumber(t, i).end
  {
    hide NumberEnd, SpelledNumeral, NumeralOk;
    var n := NumberWritten(t, i);
    d := Numeric(n);
  }

  lemma QuotedWritten(t: string, i: nat) returns (ps: seq<Piece>)
    requires i < |t| && t[i] == '"' && ScanString(t, i + 1).Done?
    ensures PiecesOk(ps) && EachOk(ps) && CodesOf(ps) == ScanString(t, i + 1).value
    ensures At(t, i, SpelledString(ps)) && i + |SpelledString(ps)| == ScanString(t, i + 1).end
  {
    hide At, ScanString, SpelledPieces, PiecesOk, CodesOf;
    ps := StringWritten(t, i + 1);
    OneChar(t, i, "\"");
    OneChar(t, i + 1 + |SpelledPieces(ps)|, "\"");
    Joined(t, i + 1, SpelledPieces(ps), "\"");
    Joined(t, i, "\"", SpelledPieces(ps) + "\"");
  }

  lemma {:induction false} ValueWritten(t: string, i: nat) returns (d: Doc)
    requires i <= |t| && ScanValue(t, i).Done?
    ensures DocOk(d) && Meaning(d) == ScanValue(t, i).value
    ensures At(t, i, Spelled(d)) && i + |Spelled(d)| == ScanValue(t, i).end
    decreases |t| - i, 0
  {
    hide At, ScanString, ScanItems, ScanMembers, ScanScalar, SkipSpace, SpelledPieces, SpelledSlots,
         SpelledEntries, CodesOf, PiecesOk;
    match t[i] {
      case '"' =>
        var ps := QuotedWritten(t, i);
        d := Quoted(ps);
      case '[' => d := ListWritten(t, i);
      case '{' => d := DictWritten(t, i);
      case _ => d := ScalarWritten(t, i);
    }
  }

  lemma Enclosed(t: string, i: nat, open: string, body: string, close: string)
    requires |open| == 1 && |close| == 1 && i < |t| && t[i] == open[0] && At(t, i + 1, body)
    requires i + 1 + |body| < |t| && t[i + 1 + |body|] == close[0]
    ensures At(t, i, open + (body + close))
  {
    hide At;
    OneChar(t, i, open);
    OneChar(t, i + 1 + |body|, close);
    Joined(t, i + 1, body, close);
    Joined(t, i, open, body + close);
  }

  lemma {:induction false} ListWritten(t: string, i: nat) returns (d: Doc)
    requires i < |t| && t[i] == '[' && ScanValue(t, i).Done?
    ensures DocOk(d) && Meaning(d) == ScanValue(t, i).value
    ensures At(t, i, Spelled(d)) && i + |Spelled(d)| == ScanValue(t, i).end
    decreases |t| - i - 1, 3
  {
    hide At, ScanItems, SkipSpace, SpelledSlots, Meanings;
    var j := SkipSpace(t, i + 1);
    SpacesBefore(t, i + 1);
    if j < |t| && t[j] == ']' {
      var inner := t[i + 1..j];
      Slice(t, i + 1, j);
      d := List(inner, []);
      Enclosed(t, i, "[", inner, "]");
      assert Meanings([]) == [] by { MeaningsNone(); }
    } else {
      var slots := ItemsWritten(t, i + 1, j);
      d := List("", slots);
      Enclosed(t, i, "[", SpelledSlots(slots), "]");
    }
  }

  lemma MeaningsNone()
    ensures Meanings([]) == [] && MemberMeanings([]) == []
  {
  }

  predicate SlotOk(slot: Slot) {
    Spaces(slot.lead) && DocOk(slot.doc) && Spaces(slot.trail)
  }

  function WholeSlot(slot: Slot): string
    requires SlotOk(slot)
  {
    slot.lead + (Spelled(slot.doc) + slot.trail)
  }

  lemma ThreeJoined(t: string, i: nat, a: string, b: string, c: string)
    requires At(t, i, a) && At(t, i + |a|, b) && At(t, i + |a| + |b|, c)
    ensures At(t, i, a + (b + c)) && |a + (b + c)| == |a| + |b| + |c|
  {
    hide At;
    Joined(t, i + |a|, b, c);
    Joined(t, i, a, b + c);
  }

  // One slot up to what follows its value.
  lemma {:induction false} SlotWritten(t: string, s: nat, i: nat) returns (slot: Slot)
    requires s <= i <= |t| && Spaces(t[s..i]) && ScanValue(t, i).Done?
    ensures SlotOk(slot) && Meaning(slot.doc) == ScanValue(t, i).value
    ensures At(t, s, WholeSlot(slot)) && s + |WholeSlot(slot)| == SkipSpace(t, ScanValue(t, i).end)
    decreases |t| - i, 1
  {
    hide At, ScanValue, SkipSpace, Spelled, DocOk, Spaces, Meaning;
    var doc := ValueWritten(t, i);
    var e := ScanValue(t, i).end;
    var j := SkipSpace(t, e);
    SpacesBefore(t, e);
    Slice(t, s, i);
    Slice(t, e, j);
    slot := Slot(t[s..i], doc, t[e..j]);
    ThreeJoined(t, s, slot.lead, Spelled(doc), slot.trail);
  }

  // The slots of a list from s on, whose first value is at i.
  lemma {:induction false} ItemsWritten(t: string, s: nat, i: nat) returns (slots: seq<Slot>)
    requires s <= i <= |t| && Spaces(t[s..i]) && ScanItems(t, i).Done?
    ensures slots != [] && SlotsOk(slots) && Meanings(slots) == ScanItems(t, i).value
    ensures var e := s + |SpelledSlots(slots)|;
            At(t, s, SpelledSlots(slots)) && e + 1 == ScanItems(t, i).end && e < |t| && t[e] == ']'
    decreases |t| - i, 2
  {
    hide At, ScanValue, SkipSpace, SpelledSlots, DocOk, SlotOk, WholeSlot, Spaces, Meaning, Meanings;
    var slot := SlotWritten(t, s, i);
    var j := SkipSpace(t, ScanValue(t, i).end);
    if t[j] == ']' {
      slots := [slot];
      LastSlot(slot);
    } else {
      SpacesBefore(t, j + 1);
      var rest := ItemsWritten(t, j + 1, SkipSpace(t, j + 1));
      slots := [slot] + rest;
      SlotBefore(slot, rest);
      OneChar(t, j, ",");
      Joined(t, j, ",", SpelledSlots(rest));
      Joined(t, s, WholeSlot(slot), "," + SpelledSlots(rest));
    }
  }

  lemma LastSlot(slot: Slot)
    requires SlotOk(slot)
    ensures SlotsOk([slot]) && Meanings([slot]) == [Meaning(slot.doc)]
    ensures SpelledSlots([slot]) == WholeSlot(slot)
  {
    hide Spelled, Meaning, DocOk, Spaces;
  }

  lemma SlotBefore(slot: Slot, rest: seq<Slot>)
    requires SlotOk(slot) && rest != [] && SlotsOk(rest)
    ensures SlotsOk([slot] + rest) && Meanings([slot] + rest) == [Meaning(slot.doc)] + Meanings(rest)
    ensures SpelledSlots([slot] + rest) == WholeSlot(slot) + ("," + SpelledSlots(rest))
  {
    hide Spelled, Meaning, DocOk, Spaces;
    assert ([slot] + rest)[1..] == rest;
    var a, b, c, d := slot.lead, Spelled(slot.doc), slot.trail, "," + SpelledSlots(rest);
    assert a + (b + (c + d)) == (a + (b + c)) + d;
  }

  lemma {:induction false} DictWritten(t: string, i: nat) returns (d: Doc)
    requires i < |t| && t[i] == '{' && ScanValue(t, i).Done?
    ensures DocOk(d) && Meaning(d) == ScanValue(t, i).value
    ensures At(t, i, Spelled(d)) && i + |Spelled(d)| == ScanValue(t, i).end
    decreases |t| - i - 1, 3
  {
    hide At, ScanMembers, SkipSpace, SpelledEntries, MemberMeanings, PiecesOk;
    var j := SkipSpace(t, i + 1);
    SpacesBefore(t, i + 1);
    if j < |t| && t[j] == '}' {
      var inner := t[i + 1..j];
      Slice(t, i + 1, j);
      d := Dict(inner, []);
      Enclosed(t, i, "{", inner, "}");
      MeaningsNone();
    } else {
      var entries := MembersWritten(t, i + 1, j);
      d := Dict("", entries);
      Enclosed(t, i, "{", SpelledEntries(entries), "}");
    }
  }

  // A key, its colon, and the white space around that.
  lemma {:induction false} KeyWritten(t: string, i: nat) returns (key: seq<Piece>, before: string, after: string)
    requires i <= |t| && ScanKey(t, i).Done?
    ensures PiecesOk(key) && EachOk(key) && Spaces(before) && Spaces(after) && CodesOf(key) == ScanKey(t, i).value
    ensures var s := SpelledString(key) + (before + (":" + after));
            At(t, i, s) && i + |s| == ScanKey(t, i).end
  {
    hide At, ScanString, SkipSpace, SpelledString, PiecesOk, CodesOf, Spaces;
    key := QuotedWritten(t, i);
    var e := ScanString(t, i + 1).end;
    var k := SkipSpace(t, e);
    var v := SkipSpace(t, k + 1);
    SpacesBefore(t, e);
    SpacesBefore(t, k + 1);
    before, after := t[e..k], t[k + 1..v];
    Slice(t, e, k);
    Slice(t, k + 1, v);
    OneChar(t, k, ":");
    Joined(t, k, ":", after);
    Joined(t, e, before, ":" + after);
    Joined(t, i, SpelledString(key), before + (":" + after));
  }

  // One entry up to what follows its value.
  lemma {:induction false} EntryWritten(t: string, s: nat, i: nat) returns (entry: Entry)
    requires s <= i <= |t| && Spaces(t[s..i]) && ScanKey(t, i).Done? && ScanValue(t, ScanKey(t, i).end).Done?
    ensures EntryOk(entry) && CodesOf(entry.key) == ScanKey(t, i).value
    ensures Meaning(entry.doc) == ScanValue(t, ScanKey(t, i).end).value
    ensures At(t, s, WholeEntry(entry)) && s + |WholeEntry(entry)| == SkipSpace(t, ScanValue(t, ScanKey(t, i).end).end)
    decreases |t| - i, 1
  {
    hide At, ScanKey, ScanValue, SkipSpace, Spelled, SpelledString, DocOk, Spaces, Meaning, PiecesOk, CodesOf, EachOk;
    var key, before, after := KeyWritten(t, i);
    var v := ScanKey(t, i).end;
    var doc := ValueWritten(t, v);
    var e := ScanValue(t, v).end;
    var j := SkipSpace(t, e);
    SpacesBefore(t, e);
    Slice(t, s, i);
    Slice(t, e, j);
    entry := Entry(t[s..i], key, before, after, doc, t[e..j]);
    FourJoined(t, s, entry.lead, SpelledString(key) + (before + (":" + after)), Spelled(doc), entry.trail);
  }

  // The entries of an object from s on, whose first key is at i.
  lemma {:induction false} MembersWritten(t: string, s: nat, i: nat) returns (entries: seq<Entry>)
    requires s <= i <= |t| && Spaces(t[s..i]) && ScanMembers(t, i).Done?
    ensures entries != [] && EntriesOk(entries) && MemberMeanings(entries) == ScanMembers(t, i).value
    ensures var e := s + |SpelledEntries(entries)|;
            At(t, s, SpelledEntries(entries)) && e + 1 == ScanMembers(t, i).end && e < |t| && t[e] == '}'
    decreases |t| - i, 2
  {
    hide At, ScanKey, ScanValue, SkipSpace, SpelledEntries, EntryOk, DocOk, PiecesOk, WholeEntry, Spaces, Meaning,
         MemberMeanings, CodesOf;
    var entry := EntryWritten(t, s, i);
    var j := SkipSpace(t, ScanValue(t, ScanKey(t, i).end).end);
    if t[j] == '}' {
      entries := [entry];
      LastEntry(entry);
    } else {
      SpacesBefore(t, j + 1);
      var rest := MembersWritten(t, j + 1, SkipSpace(t, j + 1));
      entries := [entry] + rest;
      EntryBefore(entry, rest);
      OneChar(t, j, ",");
      Joined(t, j, ",", SpelledEntries(rest));
      Joined(t, s, WholeEntry(entry), "," + SpelledEntries(rest));
    }
  }

  predicate EntryOk(e: Entry) {
    && Spaces(e.lead) && PiecesOk(e.key) && EachOk(e.key) && Spaces(e.beforeColon) && Spaces(e.afterColon)
    && DocOk(e.doc) && Spaces(e.trail)
  }

  function WholeEntry(e: Entry): string
    requires EntryOk(e)
  {
    e.lead + ((SpelledString(e.key) + (e.beforeColon + (":" + e.afterColon))) + (Spelled(e.doc) + e.trail))
  }

  lemma Regrouped(a: string, b: string, c: string, d: string, e: string, f: string, rest: string)
    ensures a + (b + (c + (":" + (d + (e + (f + rest)))))) == (a + ((b + (c + (":" + d))) + (e + f))) + rest
  {
  }

  lemma LastEntry(e: Entry)
    requires EntryOk(e)
    ensures EntriesOk([e]) && MemberMeanings([e]) == [Member(CodesOf(e.key), Meaning(e.doc))]
    ensures SpelledEntries([e]) == WholeEntry(e)
  {
    hide Spelled, SpelledString, Meaning, DocOk, Spaces, PiecesOk, CodesOf;
    Regrouped(e.lead, SpelledString(e.key), e.beforeColon, e.afterColon, Spelled(e.doc), e.trail, "");
  }

  lemma EntryBefore(e: Entry, rest: seq<Entry>)
    requires EntryOk(e) && rest != [] && EntriesOk(rest)
    ensures EntriesOk([e] + rest)
    ensures MemberMeanings([e] + rest) == [Member(CodesOf(e.key), Meaning(e.doc))] + MemberMeanings(rest)
    ensures SpelledEntries([e] + rest) == WholeEntry(e) + ("," + SpelledEntries(rest))
  {
    hide Spelled, SpelledString, Meaning, DocOk, Spaces, PiecesOk, CodesOf;
    assert ([e] + rest)[1..] == rest;
    Regrouped(e.lead, SpelledString(e.key), e.beforeColon, e.afterColon, Spelled(e.doc), e.trail, "," + SpelledEntries(rest));
  }

  // The scanner reads a value, and ends where it does, exactly where a document that stands
  // for the value is spelled; only behind a number must no more of it follow.
  lemma ReadIffWritten(t: string, i: nat, v: Value, e: nat)
    requires i <= |t|
    ensures ScanValue(t, i) == Done(v, e) ==>
              exists d :: DocOk(d) && Meaning(d) == v && At(t, i, Spelled(d)) && i + |Spelled(d)| == e
    ensures (exists d :: DocOk(d) && Meaning(d) == v && At(t, i, Spelled(d)) && i + |Spelled(d)| == e
                         && (d.Numeric? ==> Ends(t, e))) ==>
              ScanValue(t, i) == Done(v, e)
  {
    hide ScanValue, DocOk, Meaning, Spelled, At, Ends;
    if ScanValue(t, i) == Done(v, e) {
      var d := ValueWritten(t, i);
    }
    forall d | DocOk(d) && Meaning(d) == v && At(t, i, Spelled(d)) && i + |Spelled(d)| == e && (d.Numeric? ==> Ends(t, e))
      ensures ScanValue(t, i) == Done(v, e)
    {
      DocRead(t, i, d);
    }
  }
}
