/**
 When nothing goes wrong in the reading of a skills index, in terms of the chunks alone: a
 number read short is cut, white space at chunk starts decides which cut numbers are, and a
 character is only missed where a chunk inside the file is blank.
 */
module Mishaps {
  import opened JsonScanner
  import opened SkillsIndex
  import opened ChunkEnds
  import opened IndexSteps

  // The first thing that goes wrong is a number read short.
  ghost predicate NumberReadShort(t: string, cuts: set<nat>) {
    ReadMishap(t, cuts) == ReadShort
  }

  // The first thing that goes wrong is a character that is not seen.
  ghost predicate CharacterMissed(t: string, cuts: set<nat>) {
    ReadMishap(t, cuts) == Missed
  }

  // ---------- a number that is read short is cut ----------

  lemma {:induction false} MembersShortCut(t: string, cuts: set<nat>, i: nat, b: nat)
    requires i <= |t| && MembersMishap(t, cuts, i, b) == ReadShort
    ensures MembersCut(t, cuts, i)
    decreases |t| - i, 1
  {
    hide ScanValue, ReadArray, KeySeen, ColonMissed, LookTry, Astray;
    var p := Skip(t, i);
    var key, e, seen := ReadKey(t, p).value, ReadKey(t, p).end, KeySeen(t, cuts, p, LookTry(t, cuts, i, b));
    MemberShortCut(t, cuts, key, e, ColonEnd(t, cuts, seen, e - 1));
  }

  lemma SameCut(t: string, cuts: set<nat>, i: nat)
    requires i <= |t|
    ensures !(Skip(t, i) < |t| && t[Skip(t, i)] == ',') ==> AfterCut(t, cuts, i) == MembersCut(t, cuts, i)
  {
    hide ReadKey, MemberCut;
    SkipTwice(t, i);
  }

  lemma {:induction false} MemberShortCut(t: string, cuts: set<nat>, key: seq<int>, i: nat, b: nat)
    requires i <= |t| && MemberMishap(t, cuts, key, i, b) == ReadShort
    ensures MemberCut(t, cuts, key, Skip(t, i))
    decreases |t| - i, 0
  {
    hide ScanValue, ReadArray, LookTry, FirstTry, LookEnd, LookPos, DecodedEnd, ArrayEnd, ArrayMishap, MembersCut, AfterCut;
    var p, seen := Skip(t, i), LookEnd(t, cuts, i, b);
    if key == SKILLS && p < |t| && t[p] == '[' {
      var e := ReadArray(t, p + 1).end;
      if Astray(t, cuts, i, b) {
        MembersShortCut(t, cuts, e, DecodedEnd(t, cuts, LookTry(t, cuts, i, b), e));
        SameCut(t, cuts, e);
      } else {
        AfterShortCut(t, cuts, e, ArrayEnd(t, cuts, p + 1, seen));
      }
    } else {
      var e, f := ScanValue(t, p).end, if key == SKILLS then LookTry(t, cuts, i, b) else FirstTry(t, cuts, i, b);
      if !(ScanValue(t, p).value.Number? && CutFrom(t, cuts, f, p, e)) {
        if key == SKILLS {
          MembersShortCut(t, cuts, e, DecodedEnd(t, cuts, f, e));
        } else {
          AfterShortCut(t, cuts, e, DecodedEnd(t, cuts, f, e));
        }
      }
    }
  }

  lemma SameMembersCut(t: string, cuts: set<nat>, i: nat, j: nat)
    requires i <= |t| && j <= |t| && Skip(t, i) == Skip(t, j)
    ensures MembersCut(t, cuts, i) == MembersCut(t, cuts, j)
  {
    hide ReadKey, MemberCut;
  }

  lemma {:induction false} AfterShortCut(t: string, cuts: set<nat>, i: nat, b: nat)
    requires i <= |t| && AfterMishap(t, cuts, i, b) == ReadShort
    ensures AfterCut(t, cuts, i)
    decreases |t| - i, 2
  {
    hide MembersMishap, MembersCut, LookEnd, LookPos, Astray, Skip;
    var p, j, seen := Skip(t, i), LookPos(t, cuts, i, b), LookEnd(t, cuts, i, b);
    if p < |t| && t[p] == ',' {
      MembersShortCut(t, cuts, p + 1, seen);
    } else {
      MembersShortCut(t, cuts, j, seen);
      LookStays(t, cuts, i, b);
      SkipTwice(t, i);
      SameMembersCut(t, cuts, j, p);
      SameMembersCut(t, cuts, i, p);
      SameCut(t, cuts, i);
    }
  }

  lemma ShortIsCut(t: string, cuts: set<nat>)
    requires NumberReadShort(t, cuts)
    ensures DirectNumberCut(t, cuts)
  {
    hide MembersMishap, MembersCut, LookEnd, Astray;
    MembersShortCut(t, cuts, Skip(t, 0) + 1, LookEnd(t, cuts, 0, EndFrom(t, cuts, 1)));
  }

  // ---------- where no chunk inside is blank, every character is seen ----------

  // No white space reaches from one chunk end over the next.
  ghost predicate NoBlankBetween(t: string, cuts: set<nat>) {
    forall c :: c in cuts && c < |t| ==> Skip(t, c) < EndFrom(t, cuts, c + 1) || EndFrom(t, cuts, c + 1) == |t|
  }

  // The text is read up to a chunk end beyond the position.
  predicate Inside(t: string, cuts: set<nat>, i: nat, b: nat) {
    i <= b <= |t| && (b < |t| ==> b in cuts)
  }

  lemma InsideLook(t: string, cuts: set<nat>, i: nat, b: nat)
    requires NoBlankBetween(t, cuts) && Inside(t, cuts, i, b)
    ensures !Astray(t, cuts, i, b)
    ensures var p, seen := Skip(t, i), LookEnd(t, cuts, i, b);
            && Inside(t, cuts, p, seen) && Inside(t, cuts, p, FirstTry(t, cuts, i, b))
            && (p < |t| ==> p < seen && LookTry(t, cuts, i, b) == seen)
  {
    if Skip(t, i) >= b {
      SpaceUpTo(t, i, b);
    }
    SkipTwice(t, i);
    hide EndFrom, Skip;
  }

  lemma {:induction false} ArrayInside(t: string, cuts: set<nat>, i: nat, b: nat)
    requires NoBlankBetween(t, cuts) && Inside(t, cuts, i, b)
    ensures ArrayMishap(t, cuts, i, b) == Fine
    ensures ReadArray(t, i).Done? ==> Inside(t, cuts, ReadArray(t, i).end, ArrayEnd(t, cuts, i, b))
    decreases |t| - i
  {
    hide ScanValue, LookEnd, FirstTry, LookTry, EndFrom, NoBlankBetween, LookPos, Astray;
    var p, seen := Skip(t, i), LookEnd(t, cuts, i, b);
    InsideLook(t, cuts, i, b);
    if p < |t| {
      if t[p] == ',' {
        ArrayInside(t, cuts, p + 1, seen);
      } else if t[p] != ']' && ScanValue(t, p).Done? && ScanValue(t, p).value.Object? {
        var e := ScanValue(t, p).end;
        ArrayInside(t, cuts, e, DecodedEnd(t, cuts, seen, e));
      }
    }
  }

  lemma KeyInside(t: string, cuts: set<nat>, p: nat, f: nat)
    requires NoBlankBetween(t, cuts) && Inside(t, cuts, p, f) && ReadKey(t, p).Done?
    ensures var e, seen := ReadKey(t, p).end, KeySeen(t, cuts, p, f);
            !ColonMissed(seen, e - 1) && Inside(t, cuts, e, ColonEnd(t, cuts, seen, e - 1))
  {
    hide ScanValue, LookEnd, LookPos, FirstTry, LookTry, EndFrom, NoBlankBetween;
    var e := ScanValue(t, p).end;
    InsideLook(t, cuts, e, DecodedEnd(t, cuts, f, e));
  }

  lemma {:induction false} MembersSeen(t: string, cuts: set<nat>, i: nat, b: nat)
    requires NoBlankBetween(t, cuts) && Inside(t, cuts, i, b)
    ensures MembersMishap(t, cuts, i, b) != Missed
    decreases |t| - i, 1
  {
    hide ScanValue, ReadKey, LookEnd, LookPos, FirstTry, LookTry, KeySeen, ColonEnd, ColonMissed, NoBlankBetween, Astray;
    var p := Skip(t, i);
    InsideLook(t, cuts, i, b);
    if p < |t| && ReadKey(t, p).Done? {
      KeyInside(t, cuts, p, LookTry(t, cuts, i, b));
      var e, seen := ReadKey(t, p).end, KeySeen(t, cuts, p, LookTry(t, cuts, i, b));
      MemberSeen(t, cuts, ReadKey(t, p).value, e, ColonEnd(t, cuts, seen, e - 1));
    } else if p == |t| {
      NoKeyAtEnd(t, p);
    }
  }

  lemma DecodedInsideEnd(t: string, cuts: set<nat>, p: nat, f: nat, e: nat)
    requires Inside(t, cuts, p, f) && e <= |t|
    ensures Inside(t, cuts, e, DecodedEnd(t, cuts, f, e))
  {
    hide EndFrom;
  }

  lemma {:induction false} MemberSeen(t: string, cuts: set<nat>, key: seq<int>, i: nat, b: nat)
    requires NoBlankBetween(t, cuts) && Inside(t, cuts, i, b)
    ensures MemberMishap(t, cuts, key, i, b) != Missed
    decreases |t| - i, 0
  {
    hide ScanValue, ReadArray, LookEnd, LookPos, FirstTry, LookTry, NoBlankBetween, ArrayEnd, ArrayMishap, Astray, DecodedEnd;
    var p, seen := Skip(t, i), LookEnd(t, cuts, i, b);
    InsideLook(t, cuts, i, b);
    if key == SKILLS && p < |t| && t[p] == '[' {
      ArrayInside(t, cuts, p + 1, seen);
      if ReadArray(t, p + 1).Done? {
        AfterSeen(t, cuts, ReadArray(t, p + 1).end, ArrayEnd(t, cuts, p + 1, seen));
      }
    } else if ScanValue(t, p).Done? {
      var e, f := ScanValue(t, p).end, if key == SKILLS then LookTry(t, cuts, i, b) else FirstTry(t, cuts, i, b);
      DecodedInsideEnd(t, cuts, p, f, e);
      if key == SKILLS {
        MembersSeen(t, cuts, e, DecodedEnd(t, cuts, f, e));
      } else {
        AfterSeen(t, cuts, e, DecodedEnd(t, cuts, f, e));
      }
    }
  }

  lemma {:induction false} AfterSeen(t: string, cuts: set<nat>, i: nat, b: nat)
    requires NoBlankBetween(t, cuts) && Inside(t, cuts, i, b)
    ensures AfterMishap(t, cuts, i, b) != Missed
    decreases |t| - i, 2
  {
    hide MembersMishap, LookEnd, FirstTry, LookTry, NoBlankBetween, EndFrom;
    var p, seen := Skip(t, i), LookEnd(t, cuts, i, b);
    InsideLook(t, cuts, i, b);
    if p < |t| && t[p] == ',' {
      MembersSeen(t, cuts, p + 1, seen);
    } else {
      MembersSeen(t, cuts, p, seen);
    }
  }

  lemma NothingMissed(t: string, cuts: set<nat>)
    requires NoBlankBetween(t, cuts)
    ensures !CharacterMissed(t, cuts)
  {
    hide MembersMishap, ArrayMishap, LookEnd, LookPos, FirstTry, LookTry, NoBlankBetween, Astray;
    var p, b := Skip(t, 0), EndFrom(t, cuts, 1);
    InsideLook(t, cuts, 0, b);
    if p < |t| {
      MembersSeen(t, cuts, p + 1, LookEnd(t, cuts, 0, b));
      ArrayInside(t, cuts, p + 1, LookEnd(t, cuts, 0, b));
    }
  }

  // ---------- where no chunk starts with white space, a cut number is read short ----------

  ghost predicate NoSpaceAfterCut(t: string, cuts: set<nat>) {
    forall c :: c in cuts && c < |t| ==> !IsSpace(t[c])
  }

  lemma NoSpaceNoBlank(t: string, cuts: set<nat>)
    requires NoSpaceAfterCut(t, cuts)
    ensures NoBlankBetween(t, cuts)
  {
    hide EndFrom;
  }

  // The text is read up to the first chunk end beyond the position.
  ghost predicate Tight(t: string, cuts: set<nat>, i: nat, b: nat) {
    Inside(t, cuts, i, b) && forall c :: c in cuts && c < b ==> c <= i
  }

  lemma LookTight(t: string, cuts: set<nat>, i: nat, b: nat)
    requires NoSpaceAfterCut(t, cuts) && Tight(t, cuts, i, b)
    ensures !Astray(t, cuts, i, b)
    ensures var p, seen := Skip(t, i), LookEnd(t, cuts, i, b);
            Tight(t, cuts, p, seen) && (p < |t| ==> p < seen && FirstTry(t, cuts, i, b) == seen == LookTry(t, cuts, i, b))
  {
    NoSpaceNoBlank(t, cuts);
    InsideLook(t, cuts, i, b);
    if Skip(t, i) >= b {
      SpaceUpTo(t, i, b);
      assert Skip(t, b) == b;
    }
    hide EndFrom, Skip;
  }

  lemma {:induction false} ArrayTight(t: string, cuts: set<nat>, i: nat, b: nat)
    requires NoSpaceAfterCut(t, cuts) && Tight(t, cuts, i, b) && ReadArray(t, i).Done?
    ensures Tight(t, cuts, ReadArray(t, i).end, ArrayEnd(t, cuts, i, b))
    decreases |t| - i
  {
    hide ScanValue, LookEnd, FirstTry, LookTry, LookPos, NoSpaceAfterCut, Astray;
    var p, seen := Skip(t, i), LookEnd(t, cuts, i, b);
    LookTight(t, cuts, i, b);
    if t[p] == ',' {
      ArrayTight(t, cuts, p + 1, seen);
    } else if t[p] != ']' {
      var e := ScanValue(t, p).end;
      ArrayTight(t, cuts, e, DecodedEnd(t, cuts, seen, e));
    }
  }

  lemma KeyTight(t: string, cuts: set<nat>, p: nat, f: nat)
    requires NoSpaceAfterCut(t, cuts) && Tight(t, cuts, p, f) && ReadKey(t, p).Done?
    ensures var e, seen := ReadKey(t, p).end, KeySeen(t, cuts, p, f);
            !ColonMissed(seen, e - 1) && Tight(t, cuts, e, ColonEnd(t, cuts, seen, e - 1))
  {
    hide ScanValue, LookEnd, LookPos, FirstTry, LookTry, Astray;
    var e := ScanValue(t, p).end;
    LookTight(t, cuts, e, DecodedEnd(t, cuts, f, e));
  }

  lemma {:induction false} MembersCutShort(t: string, cuts: set<nat>, i: nat, b: nat)
    requires NoSpaceAfterCut(t, cuts) && Tight(t, cuts, i, b) && MembersCut(t, cuts, i)
    ensures MembersMishap(t, cuts, i, b) == ReadShort
    decreases |t| - i, 1
  {
    hide ScanValue, ReadArray, LookEnd, LookPos, FirstTry, LookTry, KeySeen, ColonEnd, ColonMissed, ReadKey, Tight, NoSpaceAfterCut;
    hide Astray;
    var p := Skip(t, i);
    LookTight(t, cuts, i, b);
    if p == |t| {
      NoKeyAtEnd(t, p);
    }
    var e, seen := ReadKey(t, p).end, KeySeen(t, cuts, p, LookTry(t, cuts, i, b));
    KeyTight(t, cuts, p, LookTry(t, cuts, i, b));
    MemberCutShort(t, cuts, ReadKey(t, p).value, e, ColonEnd(t, cuts, seen, e - 1));
  }

  lemma TightNext(t: string, cuts: set<nat>, p: nat, b: nat)
    requires Tight(t, cuts, p, b) && p < b
    ensures Tight(t, cuts, p + 1, b)
  {
  }

  lemma DecodedTight(t: string, cuts: set<nat>, p: nat, f: nat, e: nat)
    requires Tight(t, cuts, p, f) && p <= e <= |t|
    ensures Tight(t, cuts, e, DecodedEnd(t, cuts, f, e))
  {
    hide EndFrom;
  }

  lemma TightCut(t: string, cuts: set<nat>, p: nat, f: nat, e: nat)
    requires p < |t| && Tight(t, cuts, p, f)
    ensures CutFrom(t, cuts, f, p, e) <==> CutAfterDigit(t, cuts, p, e)
  {
  }

  lemma {:induction false} MemberCutShort(t: string, cuts: set<nat>, key: seq<int>, i: nat, b: nat)
    requires NoSpaceAfterCut(t, cuts) && Tight(t, cuts, i, b) && MemberCut(t, cuts, key, Skip(t, i))
    ensures MemberMishap(t, cuts, key, i, b) == ReadShort
    decreases |t| - i, 0
  {
    hide ScanValue, ReadArray, LookEnd, LookPos, FirstTry, LookTry, NoSpaceAfterCut, ArrayEnd, ArrayMishap, Tight, Astray;
    hide CutFrom, CutAfterDigit, DecodedEnd;
    var p, seen := Skip(t, i), LookEnd(t, cuts, i, b);
    LookTight(t, cuts, i, b);
    if key == SKILLS && p < |t| && t[p] == '[' {
      TightNext(t, cuts, p, seen);
      ArrayTight(t, cuts, p + 1, seen);
      ArrayClear(t, cuts, p + 1, seen);
      AfterCutShort(t, cuts, ReadArray(t, p + 1).end, ArrayEnd(t, cuts, p + 1, seen));
    } else {
      var e := ScanValue(t, p).end;
      TightCut(t, cuts, p, seen, e);
      if !(ScanValue(t, p).value.Number? && CutFrom(t, cuts, seen, p, e)) {
        DecodedTight(t, cuts, p, seen, e);
        if key == SKILLS {
          MembersCutShort(t, cuts, e, DecodedEnd(t, cuts, seen, e));
        } else {
          AfterCutShort(t, cuts, e, DecodedEnd(t, cuts, seen, e));
        }
      }
    }
  }

  lemma ArrayClear(t: string, cuts: set<nat>, i: nat, b: nat)
    requires NoSpaceAfterCut(t, cuts) && Tight(t, cuts, i, b)
    ensures ArrayMishap(t, cuts, i, b) == Fine
  {
    hide ArrayMishap, NoSpaceAfterCut;
    NoSpaceNoBlank(t, cuts);
    ArrayInside(t, cuts, i, b);
  }

  lemma {:induction false} AfterCutShort(t: string, cuts: set<nat>, i: nat, b: nat)
    requires NoSpaceAfterCut(t, cuts) && Tight(t, cuts, i, b) && AfterCut(t, cuts, i)
    ensures AfterMishap(t, cuts, i, b) == ReadShort
    decreases |t| - i, 2
  {
    hide MembersMishap, MembersCut, LookEnd, FirstTry, LookTry, NoSpaceAfterCut, EndFrom;
    var p, seen := Skip(t, i), LookEnd(t, cuts, i, b);
    LookTight(t, cuts, i, b);
    if p < |t| && t[p] == ',' {
      MembersCutShort(t, cuts, p + 1, seen);
    } else {
      MembersCutShort(t, cuts, p, seen);
    }
  }

  lemma CutIsShort(t: string, cuts: set<nat>)
    requires NoSpaceAfterCut(t, cuts) && DirectNumberCut(t, cuts)
    requires forall c :: c in cuts ==> c > 0
    ensures NumberReadShort(t, cuts)
  {
    hide MembersMishap, MembersCut, LookEnd, LookPos, FirstTry, LookTry, Astray;
    var first := EndFrom(t, cuts, 1);
    LookTight(t, cuts, 0, first);
    MembersCutShort(t, cuts, Skip(t, 0) + 1, LookEnd(t, cuts, 0, first));
  }

  // ---------- chunks of a file ----------

  lemma {:induction false} ChunkStarts(t: string, from: nat, chunks: seq<string>)
    requires from <= |t| && t[from..] == Flatten(chunks)
    requires forall i :: 0 <= i < |chunks| ==> chunks[i] != ""
    requires forall i :: 1 <= i < |chunks| ==> !IsSpace(chunks[i][0])
    ensures forall c :: c in Boundaries(from, chunks) && c < |t| ==> !IsSpace(t[c])
    decreases chunks
  {
    if chunks != [] {
      var c, rest := from + |chunks[0]|, chunks[1..];
      assert t == t[..from] + (chunks[0] + Flatten(rest));
      assert t[c..] == Flatten(rest);
      assert forall i :: 1 <= i < |rest| ==> rest[i] == chunks[i + 1];
      if c < |t| {
        assert rest != [] && t[c] == t[c..][0] == rest[0][0];
      }
      ChunkStarts(t, c, rest);
    }
  }

  lemma NoLeadingSpaceAfterCut(file: seq<string>)
    requires forall i :: 0 <= i < |file| ==> file[i] != ""
    ensures NoLeadingSpace(file) ==> NoSpaceAfterCut(Flatten(file), Boundaries(0, file))
    ensures forall c :: c in Boundaries(0, file) ==> c > 0
  {
    BoundariesFrom(0, file);
    if NoLeadingSpace(file) {
      ChunkStarts(Flatten(file), 0, file);
    }
  }

  // The chunk ends beyond `from` are those of the chunks that follow.
  ghost predicate EndsOf(t: string, cuts: set<nat>, from: nat, chunks: seq<string>) {
    && from <= |t| && t[from..] == Flatten(chunks)
    && (forall i :: 0 <= i < |chunks| ==> chunks[i] != "")
    && Boundaries(from, chunks) <= cuts && (forall c :: c in cuts && c > from ==> c in Boundaries(from, chunks))
  }

  lemma NextChunk(t: string, cuts: set<nat>, from: nat, chunks: seq<string>)
    requires EndsOf(t, cuts, from, chunks) && chunks != []
    ensures var c := from + |chunks[0]|;
            c <= |t| && t[from..c] == chunks[0] && EndFrom(t, cuts, from + 1) == c && EndsOf(t, cuts, c, chunks[1..])
    ensures |chunks| == 1 ==> from + |chunks[0]| == |t|
  {
    hide EndFrom;
    var c, rest := from + |chunks[0]|, chunks[1..];
    assert t == t[..from] + (chunks[0] + Flatten(rest));
    BoundariesFrom(from, chunks);
    BoundariesFrom(c, rest);
    assert c in cuts;
  }

  lemma {:induction false} NotBlankBetween(t: string, cuts: set<nat>, from: nat, chunks: seq<string>)
    requires EndsOf(t, cuts, from, chunks)
    requires forall i :: 1 <= i < |chunks| - 1 ==> !Blank(chunks[i])
    ensures forall c :: c in Boundaries(from, chunks) && c < |t| ==>
              Skip(t, c) < EndFrom(t, cuts, c + 1) || EndFrom(t, cuts, c + 1) == |t|
    decreases chunks
  {
    hide EndFrom, EndsOf, Skip;
    if chunks != [] {
      var c, rest := from + |chunks[0]|, chunks[1..];
      NextChunk(t, cuts, from, chunks);
      NotBlankBetween(t, cuts, c, rest);
      if c < |t| {
        AtEnd(t, cuts, c, rest);
        NextChunk(t, cuts, c, rest);
        if |rest| > 1 {
          var k :| 0 <= k < |rest[0]| && !IsSpace(rest[0][k]);
          assert t[c..c + |rest[0]|][k] == t[c + k];
          SkipReach(t, c, c + k);
        }
      }
    }
  }

  lemma AtEnd(t: string, cuts: set<nat>, from: nat, chunks: seq<string>)
    requires EndsOf(t, cuts, from, chunks)
    ensures chunks == [] ==> from == |t|
  {
  }

  lemma FileEnds(file: seq<string>)
    requires forall i :: 0 <= i < |file| ==> file[i] != ""
    ensures EndsOf(Flatten(file), Boundaries(0, file), 0, file)
  {
  }

  lemma NothingMissedInside(file: seq<string>)
    requires (forall i :: 0 <= i < |file| ==> file[i] != "") && NoBlankInside(file)
    ensures !CharacterMissed(Flatten(file), Boundaries(0, file))
  {
    FileEnds(file);
    NotBlankBetween(Flatten(file), Boundaries(0, file), 0, file);
    NothingMissed(Flatten(file), Boundaries(0, file));
  }

  // ---------- brackets behind blank chunks ----------

  // An array whose closing bracket stands behind a first chunk that holds no more than the
  // opening one, a blank chunk, and more white space.
  ghost predicate HidesBracket(t: string, file: seq<string>) {
    && |file| >= 3 && file[0] != "" && file[0][0] == '[' && Blank(file[0][1..]) && Blank(file[1])
    && var k := |file[0]| + |file[1]|;
       k < |t| && IsSpace(t[k]) && Skip(t, k) < |t| && t[Skip(t, k)] == ']'
  }

  lemma {:induction false} BlankStart(t: string, file: seq<string>)
    requires HidesBracket(t, file) && |file[0]| + |file[1]| <= |t|
    requires t[..|file[0]|] == file[0] && t[|file[0]|..|file[0]| + |file[1]|] == file[1]
    ensures var k := |file[0]| + |file[1]|;
            t[0] == '[' && Skip(t, 1) == Skip(t, k) && k < Skip(t, 1) < |t| && t[Skip(t, 1)] == ']'
  {
    var b, k := |file[0]|, |file[0]| + |file[1]|;
    assert t[..b][0] == t[0];
    forall j | 1 <= j < k
      ensures IsSpace(t[j])
    {
      if j < b {
        assert t[j] == t[..b][j] == file[0][1..][j - 1];
      } else {
        assert t[j] == t[b..k][j - b];
      }
    }
    SkipTo(t, 1, k);
  }

  lemma {:induction false} HiddenIsMissed(file: seq<string>)
    requires (forall i :: 0 <= i < |file| ==> file[i] != "") && HidesBracket(Flatten(file), file)
    ensures CharacterMissed(Flatten(file), Boundaries(0, file))
  {
    hide EndsOf, EndFrom, ScanValue, MembersMishap, Blank;
    var t, cuts, b := Flatten(file), Boundaries(0, file), |file[0]|;
    FileEnds(file);
    NextChunk(t, cuts, 0, file);
    NextChunk(t, cuts, b, file[1..]);
    assert t[0..b] == t[..b];
    BlankStart(t, file);
    hide HidesBracket, Flatten, Boundaries;
    assert Skip(t, 0) == 0;
    hide Skip;
    assert LookEnd(t, cuts, 0, b) == b && Astray(t, cuts, 1, b);
  }
}
