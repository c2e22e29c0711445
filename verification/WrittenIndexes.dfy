/** Reading an index that is one JSON document, with any white space before and behind it. */
module WrittenIndexes {
  import opened Prelude
  import opened JsonScanner
  import opened SkillsIndex
  import opened IndexSteps
  import opened IndexDocuments
  import opened JsonWriter
  import opened JsonRoundTrip
  import opened Mishaps
  import opened StreamingReader

  // ---------- documents ----------

  lemma {:induction false} WrittenLoads(before: string, d: Doc, after: string)
    requires DocOk(d) && Spaces(before) && Spaces(after)
    ensures Loads(before + (Spelled(d) + after)) == Some(Meaning(d))
    ensures SkipSpace(before + (Spelled(d) + after), 0) == |before|
    ensures Starts(Spelled(d)) && |before| < |before + (Spelled(d) + after)|
    ensures (before + (Spelled(d) + after))[|before|] == Spelled(d)[0]
  {
    hide Spelled, DocOk, Meaning, ScanValue, SkipSpace, At, Starts;
    var t := before + (Spelled(d) + after);
    Whole(t);
    Parts(t, 0, before, Spelled(d) + after);
    Parts(t, |before|, Spelled(d), after);
    DocStart(d);
    StartsThere(t, |before|, Spelled(d));
    var e := |before| + |Spelled(d)|;
    SpacesSkipped(t, 0, before);
    SpacesSkipped(t, e, after);
    SpacesEnd(t, e, after);
    DocRead(t, |before|, d);
  }

  lemma Whole(t: string)
    ensures At(t, 0, t)
  {
    assert t[0..|t|] == t;
  }

  lemma StartsThere(t: string, i: nat, s: string)
    requires At(t, i, s) && Starts(s)
    ensures i < |t| && t[i] == s[0] && !JsonSpace(t[i])
  {
    hide At;
    CharAt(t, i, s, 0);
  }

  predicate AllDicts(slots: seq<Slot>) {
    forall k :: 0 <= k < |slots| ==> slots[k].doc.Dict?
  }

  lemma {:induction false} DictsAreObjects(slots: seq<Slot>)
    requires forall k :: 0 <= k < |slots| ==> DocOk(slots[k].doc)
    ensures AllDicts(slots) <==> forall v :: v in Meanings(slots) ==> v.Object?
  {
    if slots != [] {
      DictsAreObjects(slots[1..]);
      var head, rest := Meaning(slots[0].doc), Meanings(slots[1..]);
      assert Meanings(slots) == [head] + rest;
      assert head in Meanings(slots);
      assert forall v :: v in Meanings(slots) <==> v == head || v in rest;
      assert AllDicts(slots) <==> slots[0].doc.Dict? && AllDicts(slots[1..]) by {
        assert forall k :: 0 <= k < |slots| - 1 ==> slots[1..][k] == slots[k + 1];
      }
      hide DocOk;
    }
  }

  // What a written document is read as: a list of objects as these, an object as what its
  // `skills` values give, and anything else not at all.
  function Expected(d: Doc): Outcome
    requires DocOk(d)
  {
    match d
    case List(_, slots) => if AllDicts(slots) then Accept(Meanings(slots)) else Reject
    case Dict(_, entries) =>
      if Readable(MemberMeanings(entries)) then Accept(AllSkills(MemberMeanings(entries))) else Reject
    case Literal(_) => Reject
    case Numeric(_) => Reject
    case Quoted(_) => Reject
  }

  lemma {:induction false} WrittenIndex(before: string, d: Doc, after: string)
    requires DocOk(d) && Spaces(before) && Spaces(after)
    ensures ReadIndex(before + (Spelled(d) + after)) == Expected(d)
  {
    hide ReadIndex, Loads, Spelled, Meanings, MemberMeanings, Readable, AllSkills, AllDicts;
    var t := before + (Spelled(d) + after);
    WrittenLoads(before, d, after);
    match d {
      case List(_, slots) =>
        DictsAreObjects(slots);
        ArrayDocument(t, Meanings(slots));
        ObjectsOnly(Meanings(slots));
      case Dict(_, entries) => ObjectDocument(t, MemberMeanings(entries));
      case Literal(_) => NoIndex(before, d, after);
      case Numeric(_) => NoIndex(before, d, after);
      case Quoted(_) => NoIndex(before, d, after);
    }
  }

  lemma ObjectsOnly(vs: seq<Value>)
    ensures (forall v :: v in vs ==> v.Object?) ==> CoerceEntries(Array(vs)) == vs
  {
  }

  lemma {:induction false} NoIndex(before: string, d: Doc, after: string)
    requires DocOk(d) && Spaces(before) && Spaces(after) && (d.Literal? || d.Numeric? || d.Quoted?)
    ensures ReadIndex(before + (Spelled(d) + after)) == Reject
  {
    hide ScanValue, ReadArray, ReadMembers, Loads, SkipSpace, DocOk, Spelled;
    var t := before + (Spelled(d) + after);
    WrittenLoads(before, d, after);
    NoBracket(d);
    SpaceIsSpace(t, 0);
  }

  lemma NoBracket(d: Doc)
    requires DocOk(d) && (d.Literal? || d.Numeric? || d.Quoted?)
    ensures Spelled(d) != "" && Spelled(d)[0] != '[' && Spelled(d)[0] != '{' && !IsSpace(Spelled(d)[0])
  {
    match d {
      case Literal(_) =>
      case Numeric(n) => NumeralFirst(n);
      case Quoted(ps) => QuoteStart(ps);
    }
    hide SpelledPieces, SpelledNumeral;
  }

  lemma NumeralFirst(n: Numeral)
    requires NumeralOk(n)
    ensures SpelledNumeral(n) != "" && (SpelledNumeral(n)[0] == '-' || Digit(SpelledNumeral(n)[0]))
  {
    hide SpelledFraction, SpelledExponent;
    var tail := SpelledFraction(n.fraction) + SpelledExponent(n.exponent);
    assert (n.whole + tail)[0] == n.whole[0] && n.whole[0] in "0123456789";
    assert n.negative ==> SpelledNumeral(n)[0] == '-';
    assert !n.negative ==> SpelledNumeral(n) == n.whole + tail;
  }

  // Read in one chunk, every written document gives what it says.
  method WrittenIsRead(before: string, d: Doc, after: string) returns (out: Outcome)
    requires DocOk(d) && Spaces(before) && Spaces(after)
    ensures out == Expected(d)
  {
    hide ReadIndex, Expected, Spelled, NumberReadShort, CharacterMissed, DirectNumberCut, HidesBracket, Boundaries;
    DocStart(d);
    var t := before + (Spelled(d) + after);
    WrittenIndex(before, d, after);
    OneChunkUncut(t);
    OneChunkText(t);
    hide Flatten;
    out := ReadFile([t]);
  }

  lemma OneChunkText(t: string)
    ensures Flatten([t]) == t && NoBlankInside([t])
  {
    assert Flatten([t]) == t + Flatten([]) == t;
  }
}
