/**
 The steps of reading a skills index, as facts about the whole text: what one decoding,
 one array entry, one member and one separator contribute, whatever the read chunks are.
 */
module IndexSteps {
  import opened JsonScanner
  import opened JsonPrefix
  import opened SkillsIndex
  import opened ChunkEnds

  function Flatten(chunks: seq<string>): string {
    if chunks == [] then "" else chunks[0] + Flatten(chunks[1..])
  }

  // The positions where a chunk ends, for chunks that follow `from` characters.
  function Boundaries(from: nat, chunks: seq<string>): set<nat>
    decreases chunks
  {
    if chunks == [] then {}
    else {from + |chunks[0]|} + Boundaries(from + |chunks[0]|, chunks[1..])
  }

  lemma {:induction false} BoundariesFrom(from: nat, chunks: seq<string>)
    ensures forall c :: c in Boundaries(from, chunks) ==> chunks != [] && c >= from + |chunks[0]|
    decreases chunks
  {
    if chunks != [] {
      BoundariesFrom(from + |chunks[0]|, chunks[1..]);
    }
  }

  predicate Blank(chunk: string) {
    forall i :: 0 <= i < |chunk| ==> IsSpace(chunk[i])
  }

  // No chunk but the first and the last is white space only.
  predicate NoBlankInside(file: seq<string>) {
    forall i :: 1 <= i < |file| - 1 ==> !Blank(file[i])
  }

  // No chunk but the first starts with white space.
  predicate NoLeadingSpace(file: seq<string>) {
    forall i :: 1 <= i < |file| && file[i] != "" ==> !IsSpace(file[i][0])
  }

  lemma NoLeadingSpaceNoBlank(file: seq<string>)
    requires forall i :: 0 <= i < |file| ==> file[i] != ""
    ensures NoLeadingSpace(file) ==> NoBlankInside(file)
  {
    forall i | 1 <= i < |file| - 1 && NoLeadingSpace(file)
      ensures !Blank(file[i])
    {
      assert !IsSpace(file[i][0]);
    }
  }

  // Nothing can be scanned where white space or the tail of a number stands.
  lemma NoValueAt(t: string, p: nat)
    requires p < |t|
    requires IsSpace(t[p]) || t[p] == '.' || t[p] == 'e' || t[p] == 'E' || t[p] == ',' || t[p] == '}' || t[p] == ']'
    ensures ScanValue(t, p).Fail?
  {
  }

  lemma {:induction false} SkipReach(t: string, i: nat, k: nat)
    requires i <= k < |t| && !IsSpace(t[k])
    ensures Skip(t, i) <= k
    decreases k - i
  {
    if i < k {
      SkipReach(t, i + 1, k);
    }
  }

  lemma SkipTo(t: string, i: nat, j: nat)
    requires i <= j <= |t| && forall k :: i <= k < j ==> IsSpace(t[k])
    ensures Skip(t, i) == Skip(t, j)
    decreases j - i
  {
    if i < j {
      SkipTo(t, i + 1, j);
    }
  }

  lemma ScanOfNumber(s: string, p: nat)
    requires p < |s|
    ensures ScanValue(s, p).Done? && ScanValue(s, p).value.Number? <==> NumberEnd(s, p).Some?
    ensures NumberEnd(s, p).Some? ==> ScanValue(s, p) == ScanNumber(s, p)
  {
    if NumberEnd(s, p).Some? && s[p] == '-' {
      NoDigitInInfinity(s, p);
    }
  }

  // What the reader decodes at p, ending at pos: the value of the whole text, or, when
  // a chunk end cuts a number after its first digit, the shorter number before that cut.
  ghost predicate Decoded(t: string, cuts: set<nat>, p: nat, v: Value, pos: nat)
    requires p <= |t|
  {
    var whole := ScanValue(t, p);
    && whole.Done?
    && (|| (v == whole.value && pos == whole.end)
        || (whole.value.Number? && v.Number? && CutAfterDigit(t, cuts, p, whole.end)
            && p < pos < whole.end && NumberTail(t[pos])))
  }

  // What the reader decodes at p when it tries first with the text up to f, and then at each
  // chunk end: it stops at pos, with the text read up to k.
  ghost predicate ReadFrom(t: string, cuts: set<nat>, p: nat, f: nat, pos: nat, k: nat)
    requires p <= |t|
  {
    var whole := ScanValue(t, p);
    && whole.Done?
    && if whole.value.Number? && CutFrom(t, cuts, f, p, whole.end) then pos < whole.end
       else pos == whole.end && k == DecodedEnd(t, cuts, f, whole.end)
  }

  lemma Success(t: string, cuts: set<nat>, p: nat, k: nat)
    requires p < k <= |t| && k in cuts && ScanValue(t[..k], p).Done?
    ensures Decoded(t, cuts, p, ScanValue(t[..k], p).value, ScanValue(t[..k], p).end)
  {
    var s := t[..k];
    if ScanValue(s, p).value.Number? {
      ScanOfNumber(s, p);
      ScanOfNumber(t, p);
      NumberPrefix(s, t, p);
      var e := NumberEnd(t, p).value;
      if e <= k {
        assert s[p..e] == t[p..e];
      } else {
        assert k in cuts && IntStart(t, p) < k < e;
      }
    } else {
      ValueGrow(s, t, p);
    }
  }

  ghost predicate FailsWithin(t: string, p: nat, c: nat)
    requires p <= c <= |t|
  {
    ScanValue(t[..c], p).Fail?
  }

  // Decoding was tried, and failed, at every chunk end from f up to k.
  ghost predicate Tried(t: string, cuts: set<nat>, p: nat, f: nat, k: nat)
    requires p <= |t|
  {
    forall c :: c in cuts && f <= c < k && p <= c <= |t| ==> FailsWithin(t, p, c)
  }

  // The text up to f holds the start of a value at p, and ends with a chunk.
  ghost predicate FirstAt(t: string, cuts: set<nat>, p: nat, f: nat) {
    p < f <= |t| && (f < |t| ==> f in cuts)
  }

  // Decoding the value at p, by a reader that stands at pos with the text read up to k, when f
  // is where the value is tried first.
  ghost predicate Trying(t: string, cuts: set<nat>, p: nat, f: nat, pos: nat, k: nat)
    requires p <= |t|
  {
    if pos == p then FirstAt(t, cuts, p, f) && f <= k && Tried(t, cuts, p, f, k)
    else pos < p && f == TryEnd(t, cuts, p, pos, k)
  }

  lemma TryHere(t: string, cuts: set<nat>, p: nat, k: nat)
    requires p < k <= |t| && (k < |t| ==> k in cuts)
    ensures Trying(t, cuts, p, k, p, k)
  {
    hide FailsWithin;
  }

  lemma TryingFirst(t: string, cuts: set<nat>, i: nat, b: nat, pos: nat, k: nat)
    requires i <= b <= |t| && (b > 0 ==> b in cuts) && Skip(t, i) < |t|
    requires if Skip(t, i) < b then pos == Skip(t, i) && k == b else pos == b && k == EndFrom(t, cuts, b + 1)
    ensures Trying(t, cuts, Skip(t, i), FirstTry(t, cuts, i, b), pos, k)
  {
    hide EndFrom, Skip, FailsWithin, Trying;
    if pos == Skip(t, i) {
      TryHere(t, cuts, pos, k);
    } else {
      TryingOn(t, cuts, Skip(t, i), pos, k);
    }
  }

  lemma TryingOn(t: string, cuts: set<nat>, p: nat, pos: nat, k: nat)
    requires pos < p <= |t|
    ensures Trying(t, cuts, p, TryEnd(t, cuts, p, pos, k), pos, k)
  {
  }

  // After a failed attempt: one chunk more, and white space skipped within it.
  lemma TryingAgain(t: string, cuts: set<nat>, p: nat, f: nat, k: nat)
    requires p < k <= |t| && Trying(t, cuts, p, f, p, k) && FailsWithin(t, p, k)
    ensures Trying(t, cuts, p, f, p, EndFrom(t, cuts, k + 1))
  {
    hide EndFrom, FailsWithin;
  }

  lemma TryEndStep(t: string, cuts: set<nat>, p: nat, pos: nat, k: nat)
    requires pos < p < |t| && k <= |t|
    ensures var next := EndFrom(t, cuts, k + 1);
            TryEnd(t, cuts, p, pos, k) == if p < next then next else TryEnd(t, cuts, p, next, EndFrom(t, cuts, next + 1))
    ensures forall n: nat :: TryEnd(t, cuts, p, p, n) == n
  {
    hide EndFrom;
  }

  lemma TryingMore(t: string, cuts: set<nat>, p: nat, f: nat, pos: nat, k: nat)
    requires pos < p < |t| && k <= |t| && Trying(t, cuts, p, f, pos, k)
    ensures var next := EndFrom(t, cuts, k + 1);
            if p < next then Trying(t, cuts, p, f, p, next)
            else Trying(t, cuts, p, f, next, EndFrom(t, cuts, next + 1))
  {
    hide EndFrom, FailsWithin, TryEnd;
    TryEndStep(t, cuts, p, pos, k);
    var next := EndFrom(t, cuts, k + 1);
    if p < next {
      TryHere(t, cuts, p, next);
    } else if p == next {
      TryHere(t, cuts, p, EndFrom(t, cuts, next + 1));
    }
  }

  lemma {:induction false} FirstSuccess(t: string, cuts: set<nat>, p: nat, f: nat, k: nat)
    requires FirstAt(t, cuts, p, f) && f <= k <= |t| && k in cuts
    requires ScanValue(t[..k], p).Done? && Tried(t, cuts, p, f, k)
    ensures ReadFrom(t, cuts, p, f, ScanValue(t[..k], p).end, k)
  {
    var s := t[..k];
    Success(t, cuts, p, k);
    var whole := ScanValue(t, p);
    if whole.value.Number? {
      NumberFirstSuccess(t, cuts, p, f, k);
    }
    if k >= whole.end {
      ValueShrink(s, t, p);
    }
    if !(whole.value.Number? && CutFrom(t, cuts, f, p, whole.end)) {
      assert k >= whole.end;
      NotEarlier(t, cuts, p, f, k);
    }
  }

  // A number is read short exactly when it is cut where it is tried.
  lemma {:induction false} NumberFirstSuccess(t: string, cuts: set<nat>, p: nat, f: nat, k: nat)
    requires p < f <= k <= |t| && k in cuts && Tried(t, cuts, p, f, k)
    requires ScanValue(t[..k], p).Done? && ScanValue(t, p).Done? && ScanValue(t, p).value.Number?
    ensures CutFrom(t, cuts, f, p, ScanValue(t, p).end) <==> k < ScanValue(t, p).end
  {
    var e := ScanValue(t, p).end;
    ScanOfNumber(t, p);
    if c :| c in cuts && f <= c && IntStart(t, p) < c < e {
      ScanOfNumber(t[..c], p);
      NumberPrefix(t[..c], t, p);
      assert !FailsWithin(t, p, c);
    }
    if k < e {
      ScanOfNumber(t[..k], p);
      CutsDigits(t, p, k);
      assert k in cuts && f <= k;
    }
  }

  // A prefix in which a number can be started holds its first digit.
  lemma CutsDigits(t: string, p: nat, k: nat)
    requires p < k <= |t| && ScanValue(t[..k], p).Done? && NumberEnd(t, p).Some? && k < NumberEnd(t, p).value
    ensures IntStart(t, p) < k
  {
  }

  lemma {:induction false} NotEarlier(t: string, cuts: set<nat>, p: nat, f: nat, k: nat)
    requires p < f <= k <= |t| && k in cuts && (f < |t| ==> f in cuts) && Tried(t, cuts, p, f, k)
    requires ScanValue(t, p).Done? && ScanValue(t, p).end <= k
    ensures k == DecodedEnd(t, cuts, f, ScanValue(t, p).end)
  {
    var e := ScanValue(t, p).end;
    forall c | c in cuts && f <= c < k
      ensures c < e
    {
      assert FailsWithin(t, p, c);
      if e <= c {
        ValueShrink(t[..c], t, p);
      }
    }
  }

  // One attempt to decode at a position from which white space leads to p.
  lemma AttemptAt(t: string, cuts: set<nat>, buffer: string, position: nat, p: nat)
    requires buffer <= t && position <= |buffer| && Skip(t, position) == p && (buffer != "" ==> |buffer| in cuts)
    requires ScanValue(buffer, position).Done?
    ensures position == p < |buffer| && Decoded(t, cuts, p, ScanValue(buffer, p).value, ScanValue(buffer, p).end)
  {
    assert buffer == t[..|buffer|];
    if position != p {
      NoValueAt(buffer, position);
      assert false;
    }
    Success(t, cuts, p, |buffer|);
  }

  // ---------- steps of the read, on the whole text ----------

  function Prefixed(es: seq<Value>, rest: Scan<seq<Value>>): (r: Scan<seq<Value>>)
    ensures es == [] ==> r == rest
    ensures rest.Done? && rest.value == [] ==> r == Done(es, rest.end)
    ensures rest.Done? <==> r.Done?
  {
    match rest
    case Fail => Fail
    case Done(vs, e) =>
      assert es == [] ==> es + vs == vs;
      assert vs == [] ==> es + vs == es;
      Done(es + vs, e)
  }

  // ---------- one member of the top-level object ----------

  lemma SameMembers(t: string, i: nat, j: nat)
    requires i <= |t| && j <= |t| && Skip(t, i) == Skip(t, j)
    ensures ReadMembers(t, i) == ReadMembers(t, j)
  {
    hide ReadKey, ReadMember;
  }

  lemma LookStays(t: string, cuts: set<nat>, i: nat, b: nat)
    requires i <= |t|
    ensures Skip(t, LookPos(t, cuts, i, b)) == Skip(t, i)
  {
    SpaceUpTo(t, i, LookPos(t, cuts, i, b));
  }

  lemma {:induction false} SpaceUpTo(t: string, i: nat, j: nat)
    requires i <= j <= |t| && j <= Skip(t, i)
    ensures Skip(t, j) == Skip(t, i)
    decreases j - i
  {
    if i < j {
      SpaceUpTo(t, i + 1, j);
    }
  }

  lemma MembersLook(t: string, cuts: set<nat>, i: nat, b: nat)
    requires i <= |t|
    ensures var p := Skip(t, i);
            if p < |t| && t[p] == '}' then
              && ReadMembers(t, i) == Accept([])
              && MembersMishap(t, cuts, i, b) == if Astray(t, cuts, i, b) then Missed else Fine
            else if ReadKey(t, p).Fail? then
              ReadMembers(t, i).Reject? && MembersMishap(t, cuts, i, b) == Fine
            else
              var key, e, seen := ReadKey(t, p).value, ReadKey(t, p).end, KeySeen(t, cuts, p, LookTry(t, cuts, i, b));
              && ReadMembers(t, i) == ReadMember(t, key, Skip(t, e))
              && MembersMishap(t, cuts, i, b) ==
                 if ColonMissed(seen, e - 1) then Missed else MemberMishap(t, cuts, key, e, ColonEnd(t, cuts, seen, e - 1))
  {
    hide ReadKey, ReadMember, MemberMishap, KeySeen, Astray, LookTry;
  }

  lemma NoKeyAtEnd(t: string, p: nat)
    requires p <= |t| && (p < |t| ==> t[p] == '}')
    ensures ReadKey(t, p).Fail?
  {
    if p < |t| {
      NoValueAt(t, p);
    }
  }

  lemma NoValueNoKey(t: string, p: nat)
    requires p <= |t| && ScanValue(t, p).Fail?
    ensures ReadKey(t, p).Fail?
  {
  }

  // What is decoded and is not a number is what the whole text says.
  lemma DecodedThere(t: string, cuts: set<nat>, p: nat, f: nat, v: Value, pos: nat, k: nat)
    requires p <= |t| && Decoded(t, cuts, p, v, pos) && !v.Number? && ReadFrom(t, cuts, p, f, pos, k)
    ensures ScanValue(t, p) == Done(v, pos) && k == DecodedEnd(t, cuts, f, pos)
  {
    hide ScanValue, DecodedEnd, EndFrom;
  }

  // The decoded key and the colon looked for behind it.
  lemma KeyDecoded(t: string, cuts: set<nat>, p: nat, v: Value, pos: nat)
    requires p <= |t| && Decoded(t, cuts, p, v, pos)
    ensures !v.Str? ==> ReadKey(t, p).Fail?
    ensures v.Str? ==> pos <= |t|
    ensures v.Str? ==> var k := Skip(t, pos);
                       if k < |t| && t[k] == ':' then ReadKey(t, p) == Done(v.codes, k + 1) else ReadKey(t, p).Fail?
  {
    hide ScanValue, Skip;
  }

  // What is read after a value: with `again`, no comma is looked for.
  function Next(t: string, again: bool, i: nat): Outcome
    requires i <= |t|
  {
    if again then ReadMembers(t, i) else AfterValue(t, i)
  }

  ghost function NextMishap(t: string, cuts: set<nat>, again: bool, i: nat, b: nat): Mishap
    requires i <= |t|
  {
    if again then MembersMishap(t, cuts, i, b) else AfterMishap(t, cuts, i, b)
  }

  // Taking what follows a value for another member either changes nothing or is rejected.
  lemma CommaMissed(t: string, i: nat, j: nat)
    requires i <= j <= |t| && Skip(t, i) == Skip(t, j)
    ensures ReadMembers(t, j) == AfterValue(t, i) || ReadMembers(t, j).Reject?
  {
    var k := Skip(t, i);
    if k < |t| && t[k] == ',' {
      NoValueAt(t, k);
    }
  }

  lemma TailRejected(t: string, i: nat, again: bool)
    requires i < |t| && NumberTail(t[i])
    ensures Next(t, again, i).Reject?
  {
    assert Skip(t, i) == i;
    if Digit(t[i]) {
      assert ScanValue(t, i) == ScanScalar(t, i);
    } else {
      NoValueAt(t, i);
    }
    assert ReadKey(t, i).Fail?;
    assert ReadMembers(t, i).Reject?;
  }

  lemma ObjectStart(t: string, i: nat)
    requires i <= |t| && ScanValue(t, i).Done? && ScanValue(t, i).value.Object?
    ensures t[i] == '{'
  {
  }

  lemma {:induction false} SpaceIsSpace(t: string, i: nat)
    requires i <= |t| && (SkipSpace(t, i) < |t| ==> !IsSpace(t[SkipSpace(t, i)]))
    ensures Skip(t, i) == SkipSpace(t, i)
    decreases |t| - i
  {
    if i < |t| && JsonSpace(t[i]) {
      SpaceIsSpace(t, i + 1);
    }
  }

  lemma EntryRead(t: string, i: nat)
    requires i <= |t| && ScanValue(t, i).Done? && ScanValue(t, i).value.Object?
    ensures ReadArray(t, i) == Prepend(ScanValue(t, i).value, ReadArray(t, ScanValue(t, i).end))
  {
    ObjectStart(t, i);
    assert Skip(t, i) == i;
  }

  lemma SameArray(t: string, i: nat, j: nat)
    requires i <= |t| && j <= |t| && Skip(t, i) == Skip(t, j)
    ensures ReadArray(t, i) == ReadArray(t, j)
  {
    hide ScanValue;
  }

  lemma PrefixedStep(es: seq<Value>, v: Value, rest: Scan<seq<Value>>)
    ensures Prefixed(es, Prepend(v, rest)) == Prefixed(es + [v], rest)
  {
    if rest.Done? {
      assert es + ([v] + rest.value) == es + [v] + rest.value;
    }
  }

  lemma SkipTwice(t: string, i: nat)
    requires i <= |t|
    ensures Skip(t, Skip(t, i)) == Skip(t, i)
  {
  }

  // The two characters that the array loop handles itself.
  lemma ArrayLook(t: string, p: nat)
    requires p < |t|
    ensures t[p] == ']' ==> ReadArray(t, p) == Done([], p + 1)
    ensures t[p] == ',' ==> ReadArray(t, p) == ReadArray(t, p + 1)
  {
    hide ScanValue;
  }

  // What the two characters and an entry contribute to the course of the read.
  lemma ArrayCourse(t: string, cuts: set<nat>, i: nat, b: nat)
    requires i <= |t| && Skip(t, i) < |t|
    ensures var p, seen, astray := Skip(t, i), LookEnd(t, cuts, i, b), Astray(t, cuts, i, b);
            && (t[p] == ']' ==> ArrayEnd(t, cuts, i, b) == seen)
            && (t[p] == ']' && !astray ==> ArrayMishap(t, cuts, i, b) == Fine)
            && (t[p] == ',' ==> ArrayEnd(t, cuts, i, b) == ArrayEnd(t, cuts, p + 1, seen))
            && (t[p] == ',' && !astray ==> ArrayMishap(t, cuts, i, b) == ArrayMishap(t, cuts, p + 1, seen))
            && ((t[p] == ']' || t[p] == ',') && astray ==> ArrayMishap(t, cuts, i, b) == Missed)
            && (ScanValue(t, p).Done? && ScanValue(t, p).value.Object? ==>
                  var e := ScanValue(t, p).end;
                  var k := DecodedEnd(t, cuts, LookTry(t, cuts, i, b), e);
                  && ArrayEnd(t, cuts, i, b) == ArrayEnd(t, cuts, e, k)
                  && ArrayMishap(t, cuts, i, b) == ArrayMishap(t, cuts, e, k))
  {
    var p := Skip(t, i);
    if ScanValue(t, p).Done? && ScanValue(t, p).value.Object? {
      ObjectStart(t, p);
    }
    hide ScanValue, DecodedEnd, LookTry, LookEnd, Astray, Skip;
  }

  // What a decoded entry, or a failed decoding, at p says about the rest of the array.
  lemma ArrayEntry(t: string, cuts: set<nat>, p: nat, v: Value, pos: nat)
    requires p <= |t| && Decoded(t, cuts, p, v, pos) && Skip(t, p) == p
    ensures v.Object? ==> pos <= |t| && ReadArray(t, p) == Prepend(v, ReadArray(t, pos))
    ensures !v.Object? ==> ReadArray(t, p).Fail?
  {
    if v.Object? {
      EntryRead(t, p);
    } else {
      NoEntry(t, p);
    }
  }

  // The progress of a read of an array that started at p0 with the text read up to b0, has
  // taken es, and stands at i with the text read up to b.
  ghost predicate ArrayOn(t: string, cuts: set<nat>, p0: nat, b0: nat, es: seq<Value>, i: nat, b: nat)
    requires p0 <= |t|
  {
    && i <= |t|
    && ReadArray(t, p0) == Prefixed(es, ReadArray(t, i))
    && ArrayEnd(t, cuts, p0, b0) == ArrayEnd(t, cuts, i, b)
    && ArrayMishap(t, cuts, p0, b0) == ArrayMishap(t, cuts, i, b)
  }

  lemma ArrayStarts(t: string, cuts: set<nat>, p0: nat, b0: nat)
    requires p0 <= |t|
    ensures ArrayOn(t, cuts, p0, b0, [], p0, b0)
  {
    hide ReadArray, ArrayEnd, ArrayMishap;
  }

  // The closing bracket, or a comma, that has been seen.
  lemma ArrayOnCharacter(t: string, cuts: set<nat>, p0: nat, b0: nat, es: seq<Value>, i: nat, b: nat)
    requires p0 <= |t| && i <= |t| && Skip(t, i) < |t| && !Astray(t, cuts, i, b) && ArrayOn(t, cuts, p0, b0, es, i, b)
    ensures t[Skip(t, i)] == ']' ==>
              && ReadArray(t, p0) == Done(es, Skip(t, i) + 1) && ArrayMishap(t, cuts, p0, b0) == Fine
              && ArrayEnd(t, cuts, p0, b0) == LookEnd(t, cuts, i, b)
    ensures t[Skip(t, i)] == ',' ==> ArrayOn(t, cuts, p0, b0, es, Skip(t, i) + 1, LookEnd(t, cuts, i, b))
  {
    hide ReadArray, ArrayEnd, ArrayMishap, Skip, LookEnd, Astray;
    SkipTwice(t, i);
    SameArray(t, i, Skip(t, i));
    ArrayLook(t, Skip(t, i));
    ArrayCourse(t, cuts, i, b);
  }

  lemma ArrayOnEntry(t: string, cuts: set<nat>, p0: nat, b0: nat, es: seq<Value>, i: nat, b: nat, v: Value, pos: nat, k: nat)
    requires p0 <= |t| && i <= |t| && ArrayOn(t, cuts, p0, b0, es, i, b)
    requires Decoded(t, cuts, Skip(t, i), v, pos) && ReadFrom(t, cuts, Skip(t, i), LookTry(t, cuts, i, b), pos, k)
    ensures v.Object? ==> ArrayOn(t, cuts, p0, b0, es + [v], pos, k)
    ensures !v.Object? ==> ReadArray(t, p0).Fail?
  {
    hide ReadArray, ArrayEnd, ArrayMishap, Skip, Prefixed, ReadFrom, LookTry, ScanValue, Prepend, DecodedEnd;
    var p := Skip(t, i);
    SkipTwice(t, i);
    SameArray(t, i, p);
    ArrayEntry(t, cuts, p, v, pos);
    if v.Object? {
      DecodedThere(t, cuts, p, LookTry(t, cuts, i, b), v, pos, k);
      DecodedInside(t, cuts, p, v, pos);
      ArrayCourse(t, cuts, i, b);
      PrefixedStep(es, v, ReadArray(t, pos));
    } else {
      PrefixedFails(es, ReadArray(t, i));
    }
  }

  lemma DecodedInside(t: string, cuts: set<nat>, p: nat, v: Value, pos: nat)
    requires p <= |t| && Decoded(t, cuts, p, v, pos)
    ensures p < |t| && pos <= |t|
  {
  }

  lemma PrefixedFails(es: seq<Value>, rest: Scan<seq<Value>>)
    ensures rest.Fail? ==> Prefixed(es, rest).Fail?
  {
  }

  // Nothing can be decoded, at a bracket or a comma only because it has not been seen.
  lemma ArrayOnNothing(t: string, cuts: set<nat>, p0: nat, b0: nat, es: seq<Value>, i: nat, b: nat)
    requires p0 <= |t| && i <= |t| && ArrayOn(t, cuts, p0, b0, es, i, b)
    requires Skip(t, i) < |t| ==> ScanValue(t, Skip(t, i)).Fail?
    requires Skip(t, i) < |t| && (t[Skip(t, i)] == ']' || t[Skip(t, i)] == ',') ==> Astray(t, cuts, i, b)
    ensures ReadArray(t, p0).Fail? || ArrayMishap(t, cuts, p0, b0) != Fine
  {
    hide ReadArray, ArrayEnd, ArrayMishap, Astray, Skip, Prefixed;
    var p := Skip(t, i);
    SkipTwice(t, i);
    if p < |t| && (t[p] == ']' || t[p] == ',') {
      ArrayCourse(t, cuts, i, b);
    } else {
      NoEntry(t, p);
      SameArray(t, i, p);
      PrefixedFails(es, ReadArray(t, i));
    }
  }

  lemma NoEntry(t: string, p: nat)
    requires p <= |t| && Skip(t, p) == p && !(ScanValue(t, p).Done? && ScanValue(t, p).value.Object?)
    requires ScanValue(t, p).Fail? ==> p < |t| ==> t[p] != ']' && t[p] != ','
    ensures ReadArray(t, p).Fail?
  {
    if p < |t| && (t[p] == ']' || t[p] == ',') {
      NoValueAt(t, p);
    }
  }

  // Between two entries the strict reading and the lenient one agree.
  lemma SeparatorRead(t: string, e: nat)
    requires e <= |t|
    ensures var sep := SeparatorAt(t, e, ']');
            && (sep.Close? ==> ReadArray(t, e) == Done([], sep.end))
            && (sep.More? && sep.next < |t| && !IsSpace(t[sep.next]) ==> ReadArray(t, e) == ReadArray(t, sep.next))
  {
    hide ScanValue;
    var j := SkipSpace(t, e);
    var sep := SeparatorAt(t, e, ']');
    if !sep.Neither? {
      SpaceIsSpace(t, e);
      if sep.More? && sep.next < |t| && !IsSpace(t[sep.next]) {
        SpaceIsSpace(t, j + 1);
        assert Skip(t, sep.next) == Skip(t, j + 1);
        assert ReadArray(t, j + 1) == ReadArray(t, sep.next);
      }
    }
  }

  // An array that the decoder takes whole is also what the lenient loop reads.
  lemma {:induction false} ItemsRead(t: string, i: nat)
    requires i <= |t| && ScanItems(t, i).Done? && forall v :: v in ScanItems(t, i).value ==> v.Object?
    ensures ReadArray(t, i) == ScanItems(t, i) && t[i] == '{'
    decreases |t| - i
  {
    var v, e := ScanValue(t, i).value, ScanValue(t, i).end;
    assert v == ScanItems(t, i).value[0];
    ObjectStart(t, i);
    EntryRead(t, i);
    SeparatorRead(t, e);
    hide ScanValue, ReadArray;
    var sep := SeparatorAt(t, e, ']');
    if sep.More? {
      ItemsTail(t, i);
      ItemsRead(t, sep.next);
    } else {
      assert [v] + [] == [v];
    }
  }

  lemma ItemsTail(t: string, i: nat)
    requires i <= |t| && ScanItems(t, i).Done? && forall v :: v in ScanItems(t, i).value ==> v.Object?
    ensures var sep := SeparatorAt(t, ScanValue(t, i).end, ']');
            sep.More? ==> ScanItems(t, sep.next).Done? && forall v :: v in ScanItems(t, sep.next).value ==> v.Object?
  {
    var sep := SeparatorAt(t, ScanValue(t, i).end, ']');
    if sep.More? {
      var rest := ScanItems(t, sep.next).value;
      assert ScanItems(t, i).value == [ScanValue(t, i).value] + rest;
      forall v | v in rest
        ensures v.Object?
      {
        assert v in ScanItems(t, i).value;
      }
    }
  }

  lemma ArrayRead(t: string, p: nat)
    requires p < |t| && t[p] == '[' && ScanValue(t, p).Done?
    requires forall v :: v in ScanValue(t, p).value.items ==> v.Object?
    ensures ReadArray(t, p + 1) == Done(ScanValue(t, p).value.items, ScanValue(t, p).end)
  {
    var j := SkipSpace(t, p + 1);
    if t[j] != ']' {
      ItemsRead(t, j);
    }
    SpaceIsSpace(t, p + 1);
  }

  lemma ValueStart(t: string, i: nat)
    requires i <= |t| && ScanValue(t, i).Done?
    ensures i < |t| && !IsSpace(t[i]) && t[i] != '}' && t[i] != ']' && t[i] != ','
    ensures ScanValue(t, i).value.Array? <==> t[i] == '['
    ensures ScanValue(t, i).value.Object? <==> t[i] == '{'
  {
  }

  // A strictly read array that holds anything but objects is rejected by the lenient loop.
  lemma {:induction false} ItemsRejected(t: string, i: nat)
    requires i <= |t| && ScanItems(t, i).Done? && exists v :: v in ScanItems(t, i).value && !v.Object?
    ensures ReadArray(t, i).Fail?
    decreases |t| - i
  {
    var v, e := ScanValue(t, i).value, ScanValue(t, i).end;
    ValueStart(t, i);
    assert Skip(t, i) == i;
    if v.Object? {
      var sep := SeparatorAt(t, e, ']');
      var bad :| bad in ScanItems(t, i).value && !bad.Object?;
      assert sep.More?;
      assert bad in ScanItems(t, sep.next).value;
      ItemsRejected(t, sep.next);
      ItemsStart(t, sep.next);
      SeparatorRead(t, e);
      EntryRead(t, i);
    } else {
      NoEntry(t, i);
    }
  }

  lemma ItemsStart(t: string, i: nat)
    requires i <= |t| && ScanItems(t, i).Done?
    ensures i < |t| && !IsSpace(t[i])
  {
    ValueStart(t, i);
  }

  lemma ArrayRejected(t: string, p: nat)
    requires p < |t| && t[p] == '[' && ScanValue(t, p).Done?
    requires exists v :: v in ScanValue(t, p).value.items && !v.Object?
    ensures ReadArray(t, p + 1).Fail?
  {
    var j := SkipSpace(t, p + 1);
    ItemsRejected(t, j);
    ItemsStart(t, j);
    SpaceIsSpace(t, p + 1);
    SameArray(t, p + 1, j);
  }

  // What the reader makes of the value of a key whose colon ends at i, with the text read up
  // to b: the entries es it takes from it, where and how it goes on, and how far the text is
  // then read. Whatever the chunks are, it goes on as the whole text says or is bound to
  // reject, and it goes astray exactly when something goes wrong from here on.
  ghost predicate MemberTaken(t: string, cuts: set<nat>, key: seq<int>, i: nat, b: nat, es: seq<Value>, again: bool,
                              pos: nat, k: nat)
    requires i <= |t|
  {
    && pos <= |t|
    && (|| ReadMember(t, key, Skip(t, i)) == Join(es, Next(t, again, pos))
        || Next(t, again, pos).Reject?)
    && if MemberMishap(t, cuts, key, i, b) == Fine
       then ReadMember(t, key, Skip(t, i)) == Join(es, Next(t, again, pos)) && NextMishap(t, cuts, again, pos, k) == Fine
       else NextMishap(t, cuts, again, pos, k) != Fine || Next(t, again, pos).Reject?
  }

  lemma ArrayTaken(t: string, cuts: set<nat>, i: nat, b: nat, es: seq<Value>, pos: nat, k: nat)
    requires i <= |t| && Skip(t, i) < |t| && t[Skip(t, i)] == '[' && ReadArray(t, Skip(t, i) + 1) == Done(es, pos)
    requires !Astray(t, cuts, i, b)
    requires ArrayMishap(t, cuts, Skip(t, i) + 1, LookEnd(t, cuts, i, b)) == Fine
    requires k == ArrayEnd(t, cuts, Skip(t, i) + 1, LookEnd(t, cuts, i, b))
    ensures MemberTaken(t, cuts, SKILLS, i, b, es, false, pos, k)
  {
    hide ReadArray, ReadMembers, MembersMishap, AfterValue, AfterMishap, Skip, LookEnd, ArrayEnd, ArrayMishap, Astray;
  }

  lemma ArrayNotTaken(t: string, cuts: set<nat>, i: nat, b: nat)
    requires i <= |t| && Skip(t, i) < |t| && t[Skip(t, i)] == '[' && !Astray(t, cuts, i, b)
    requires ReadArray(t, Skip(t, i) + 1).Fail? || ArrayMishap(t, cuts, Skip(t, i) + 1, LookEnd(t, cuts, i, b)) != Fine
    ensures ReadMember(t, SKILLS, Skip(t, i)).Reject? || MemberMishap(t, cuts, SKILLS, i, b) != Fine
  {
    hide ReadArray, ReadMembers, MembersMishap, AfterValue, AfterMishap, Skip, LookEnd, ArrayEnd, ArrayMishap, Astray;
  }

  lemma ValueTaken(t: string, cuts: set<nat>, key: seq<int>, i: nat, b: nat, v: Value, pos: nat, k: nat)
    requires i <= |t| && Decoded(t, cuts, Skip(t, i), v, pos)
    requires !(key == SKILLS && Skip(t, i) < |t| && t[Skip(t, i)] == '[')
    requires ReadFrom(t, cuts, Skip(t, i), if key == SKILLS then LookTry(t, cuts, i, b) else FirstTry(t, cuts, i, b), pos, k)
    ensures MemberTaken(t, cuts, key, i, b, [], key == SKILLS, pos, k)
    ensures key == SKILLS ==> !v.Array?
  {
    var p := Skip(t, i);
    ArrayStart(t, p);
    hide ScanValue, ReadArray, ReadMembers, MembersMishap, AfterValue, AfterMishap, LookTry, FirstTry, DecodedEnd, Skip;
    var whole := ScanValue(t, p);
    if v == whole.value && pos == whole.end {
      assert Join([], Next(t, key == SKILLS, pos)) == Next(t, key == SKILLS, pos);
    } else {
      TailRejected(t, pos, key == SKILLS);
    }
  }

  lemma ArrayStart(t: string, p: nat)
    requires p <= |t| && ScanValue(t, p).Done?
    ensures ScanValue(t, p).value.Array? <==> t[p] == '['
    ensures ScanValue(t, p).value.Array? ==> !ScanValue(t, p).value.Number?
  {
  }

  // The opening bracket of the `skills` array was not seen, so the decoder took it whole.
  lemma BracketValue(t: string, cuts: set<nat>, p: nat, v: Value, pos: nat)
    requires p < |t| && t[p] == '[' && Decoded(t, cuts, p, v, pos)
    ensures v.Array? && pos <= |t| && ScanValue(t, p) == Done(v, pos)
    ensures if forall u :: u in v.items ==> u.Object?
            then ReadArray(t, p + 1) == Done(v.items, pos)
            else ReadArray(t, p + 1).Fail?
    ensures if Skip(t, pos) < |t| && t[Skip(t, pos)] == ',' then ReadMembers(t, pos).Reject?
            else ReadMembers(t, pos) == AfterValue(t, pos)
  {
    ArrayStart(t, p);
    if forall u :: u in v.items ==> u.Object? {
      ArrayRead(t, p);
    } else {
      ArrayRejected(t, p);
    }
    CommaOnly(t, pos);
  }

  lemma CommaOnly(t: string, i: nat)
    requires i <= |t|
    ensures ReadMembers(t, i) == AfterValue(t, i) || (Skip(t, i) < |t| && t[Skip(t, i)] == ',')
    ensures Skip(t, i) < |t| && t[Skip(t, i)] == ',' ==> ReadMembers(t, i).Reject?
  {
    hide ReadMember;
    var k := Skip(t, i);
    SkipTwice(t, i);
    SameMembers(t, i, k);
    if k < |t| && t[k] == ',' {
      NoValueAt(t, k);
    }
  }

  lemma BracketMissed(t: string, cuts: set<nat>, i: nat, b: nat, v: Value, pos: nat, k: nat)
    requires i <= |t| && Skip(t, i) < |t| && t[Skip(t, i)] == '[' && Astray(t, cuts, i, b)
    requires Decoded(t, cuts, Skip(t, i), v, pos) && ReadFrom(t, cuts, Skip(t, i), LookTry(t, cuts, i, b), pos, k)
    ensures v.Array?
    ensures if forall u :: u in v.items ==> u.Object? then MemberTaken(t, cuts, SKILLS, i, b, v.items, true, pos, k)
            else ReadMember(t, SKILLS, Skip(t, i)).Reject?
  {
    hide Skip, Decoded, ReadMembers, AfterValue, MembersMishap, AfterMishap, ReadArray, ScanValue, DecodedEnd, LookTry, Astray;
    var p := Skip(t, i);
    BracketValue(t, cuts, p, v, pos);
    DecodedThere(t, cuts, p, LookTry(t, cuts, i, b), v, pos, k);
    assert Next(t, true, pos) == ReadMembers(t, pos);
    assert NextMishap(t, cuts, true, pos, k) == MembersMishap(t, cuts, pos, k);
  }

  lemma NothingAtEnd(t: string, p: nat, i: nat)
    requires i == |t| && p <= |t| && Skip(t, i) == p
    ensures p == |t| && ScanValue(t, p).Fail?
  {
  }

  // Nothing can be decoded at the value, an array only because its bracket has not been seen.
  lemma NothingTaken(t: string, cuts: set<nat>, key: seq<int>, i: nat, b: nat)
    requires i <= |t| && ScanValue(t, Skip(t, i)).Fail?
    requires key == SKILLS && Skip(t, i) < |t| && t[Skip(t, i)] == '[' ==> Astray(t, cuts, i, b)
    ensures ReadMember(t, key, Skip(t, i)).Reject? || MemberMishap(t, cuts, key, i, b) != Fine
  {
    hide ScanValue, ReadArray, Skip, Astray, AfterMishap, MembersMishap;
  }

  lemma JoinStep(xs: seq<Value>, ys: seq<Value>, rest: Outcome)
    ensures Join(xs, Join(ys, rest)) == Join(xs + ys, rest)
    ensures Join([], rest) == rest
  {
    if rest.Accept? {
      assert xs + (ys + rest.entries) == xs + ys + rest.entries;
      assert [] + rest.entries == rest.entries;
    }
  }

  // The progress of a read of an object that started at p0 with the text read up to b0, has
  // taken es, and goes on at pos with the text read up to b.
  ghost predicate OnTrack(t: string, cuts: set<nat>, p0: nat, b0: nat, es: seq<Value>, again: bool, pos: nat, b: nat)
    requires p0 <= |t|
  {
    && pos <= |t|
    && (|| ReadMembers(t, p0) == Join(es, Next(t, again, pos))
        || Next(t, again, pos).Reject?)
    && if MembersMishap(t, cuts, p0, b0) == Fine
       then ReadMembers(t, p0) == Join(es, Next(t, again, pos)) && NextMishap(t, cuts, again, pos, b) == Fine
       else NextMishap(t, cuts, again, pos, b) != Fine || Next(t, again, pos).Reject?
  }

  lemma Start(t: string, cuts: set<nat>, p0: nat, b0: nat)
    requires p0 <= |t|
    ensures OnTrack(t, cuts, p0, b0, [], true, p0, b0)
  {
    hide ReadMembers, MembersMishap;
    JoinStep([], [], ReadMembers(t, p0));
  }

  // One more member.
  lemma OnTrackMember(t: string, cuts: set<nat>, p0: nat, b0: nat, es: seq<Value>, i: nat, b: nat, key: seq<int>, v: nat, vb: nat,
                      more: seq<Value>, again: bool, pos: nat, k: nat)
    requires p0 <= |t| && i <= |t| && OnTrack(t, cuts, p0, b0, es, true, i, b)
    requires ReadKey(t, Skip(t, i)) == Done(key, v)
    requires var seen := KeySeen(t, cuts, Skip(t, i), LookTry(t, cuts, i, b));
             !ColonMissed(seen, v - 1) && vb == ColonEnd(t, cuts, seen, v - 1)
    requires MemberTaken(t, cuts, key, v, vb, more, again, pos, k)
    ensures OnTrack(t, cuts, p0, b0, es + more, again, pos, k)
  {
    hide ReadMembers, MembersMishap, AfterMishap, AfterValue, ReadMember, MemberMishap, Skip, ReadKey, KeySeen, LookTry;
    hide ColonMissed, ColonEnd, Join;
    if Skip(t, i) == |t| || t[Skip(t, i)] == '}' {
      NoKeyAtEnd(t, Skip(t, i));
    }
    MembersLook(t, cuts, i, b);
    JoinStep(es, more, Next(t, again, pos));
    assert Next(t, true, i) == ReadMember(t, key, Skip(t, v));
    assert NextMishap(t, cuts, true, i, b) == MemberMishap(t, cuts, key, v, vb);
    JoinRejects(es, more, Next(t, again, pos));
  }

  lemma JoinRejects(xs: seq<Value>, ys: seq<Value>, rest: Outcome)
    ensures rest.Reject? ==> Join(xs, rest) == rest && Join(ys, rest) == rest && Join(xs + ys, rest) == rest
  {
  }

  // The end of the loop: an accepting brace.
  lemma OnTrackEnd(t: string, cuts: set<nat>, p0: nat, b0: nat, es: seq<Value>, i: nat, b: nat)
    requires p0 <= |t| && i <= |t| && OnTrack(t, cuts, p0, b0, es, true, i, b)
    requires Skip(t, i) < |t| && t[Skip(t, i)] == '}' && !Astray(t, cuts, i, b)
    ensures ReadMembers(t, p0) == Accept(es) && MembersMishap(t, cuts, p0, b0) == Fine
  {
    hide ReadMembers, MembersMishap, Skip, ReadKey, Astray;
    MembersLook(t, cuts, i, b);
    assert es + [] == es;
  }

  // No further member, though no brace has been seen.
  lemma OnTrackNoKey(t: string, cuts: set<nat>, p0: nat, b0: nat, es: seq<Value>, i: nat, b: nat)
    requires p0 <= |t| && i <= |t| && OnTrack(t, cuts, p0, b0, es, true, i, b)
    requires Skip(t, i) < |t| && t[Skip(t, i)] == '}' ==> Astray(t, cuts, i, b)
    requires ReadKey(t, Skip(t, i)).Fail?
             || ColonMissed(KeySeen(t, cuts, Skip(t, i), LookTry(t, cuts, i, b)), ReadKey(t, Skip(t, i)).end - 1)
    ensures ReadMembers(t, p0).Reject? || MembersMishap(t, cuts, p0, b0) != Fine
  {
    hide ReadMembers, MembersMishap, Skip, ReadKey, Astray, KeySeen, LookTry, ColonMissed;
    MembersLook(t, cuts, i, b);
  }

  // A member from which nothing can be taken.
  lemma OnTrackStop(t: string, cuts: set<nat>, p0: nat, b0: nat, es: seq<Value>, i: nat, b: nat, key: seq<int>, v: nat, vb: nat)
    requires p0 <= |t| && i <= |t| && OnTrack(t, cuts, p0, b0, es, true, i, b)
    requires ReadKey(t, Skip(t, i)) == Done(key, v)
    requires var seen := KeySeen(t, cuts, Skip(t, i), LookTry(t, cuts, i, b));
             !ColonMissed(seen, v - 1) && vb == ColonEnd(t, cuts, seen, v - 1)
    requires ReadMember(t, key, Skip(t, v)).Reject? || MemberMishap(t, cuts, key, v, vb) != Fine
    ensures ReadMembers(t, p0).Reject? || MembersMishap(t, cuts, p0, b0) != Fine
  {
    hide ReadMembers, MembersMishap, ReadMember, MemberMishap, Skip, ReadKey, KeySeen, LookTry, ColonMissed, ColonEnd;
    if Skip(t, i) == |t| || t[Skip(t, i)] == '}' {
      NoKeyAtEnd(t, Skip(t, i));
    }
    MembersLook(t, cuts, i, b);
  }

  // After a value: a comma.
  lemma OnTrackComma(t: string, cuts: set<nat>, p0: nat, b0: nat, es: seq<Value>, i: nat, b: nat)
    requires p0 <= |t| && i <= |t| && OnTrack(t, cuts, p0, b0, es, false, i, b)
    requires Skip(t, i) < |t| && t[Skip(t, i)] == ',' && !Astray(t, cuts, i, b)
    ensures OnTrack(t, cuts, p0, b0, es, true, Skip(t, i) + 1, LookEnd(t, cuts, i, b))
  {
    hide ReadMembers, MembersMishap, AfterValue, AfterMishap, Skip, LookEnd, Astray;
    AfterLook(t, cuts, i, b);
  }

  // After a value: the closing brace.
  lemma OnTrackBrace(t: string, cuts: set<nat>, p0: nat, b0: nat, es: seq<Value>, i: nat, b: nat)
    requires p0 <= |t| && i <= |t| && OnTrack(t, cuts, p0, b0, es, false, i, b)
    requires Skip(t, i) < |t| && t[Skip(t, i)] == '}' && !Astray(t, cuts, i, b)
    ensures ReadMembers(t, p0) == Accept(es) && MembersMishap(t, cuts, p0, b0) == Fine
  {
    hide ReadMembers, MembersMishap, AfterValue, AfterMishap, Skip, LookEnd, LookPos;
    SkipTwice(t, i);
    AfterLook(t, cuts, i, b);
    BraceSeen(t, cuts, i, b);
    assert es + [] == es;
  }

  lemma BraceSeen(t: string, cuts: set<nat>, i: nat, b: nat)
    requires i <= |t| && Skip(t, i) < |t| && t[Skip(t, i)] == '}' && !Astray(t, cuts, i, b)
    ensures AfterMishap(t, cuts, i, b) == Fine && AfterValue(t, i) == Accept([])
  {
    hide EndFrom, ReadMembers;
    SkipTwice(t, i);
  }

  // After a value: anything else, which the loop takes for a member. It may be a comma or the
  // brace that was not seen.
  lemma OnTrackElse(t: string, cuts: set<nat>, p0: nat, b0: nat, es: seq<Value>, i: nat, b: nat)
    requires p0 <= |t| && i <= |t| && OnTrack(t, cuts, p0, b0, es, false, i, b)
    requires Skip(t, i) < |t| && t[Skip(t, i)] == ',' ==> Astray(t, cuts, i, b)
    ensures OnTrack(t, cuts, p0, b0, es, true, LookPos(t, cuts, i, b), LookEnd(t, cuts, i, b))
  {
    hide ReadMembers, MembersMishap, AfterValue, AfterMishap, Skip, LookEnd, LookPos, Astray;
    LookStays(t, cuts, i, b);
    CommaMissed(t, i, LookPos(t, cuts, i, b));
    AfterLook(t, cuts, i, b);
  }

  lemma AfterLook(t: string, cuts: set<nat>, i: nat, b: nat)
    requires i <= |t|
    ensures var p, j, seen := Skip(t, i), LookPos(t, cuts, i, b), LookEnd(t, cuts, i, b);
            if p < |t| && t[p] == ',' then
              && AfterValue(t, i) == ReadMembers(t, p + 1)
              && AfterMishap(t, cuts, i, b) == (if Astray(t, cuts, i, b) then Missed else MembersMishap(t, cuts, p + 1, seen))
              && ReadMembers(t, j).Reject?
            else
              && AfterValue(t, i) == ReadMembers(t, j)
              && AfterMishap(t, cuts, i, b) == MembersMishap(t, cuts, j, seen)
  {
    hide ReadMembers, MembersMishap, LookEnd, LookPos, ReadKey;
    LookStays(t, cuts, i, b);
    SkipTwice(t, i);
    SameMembers(t, LookPos(t, cuts, i, b), Skip(t, i));
    CommaOnly(t, LookPos(t, cuts, i, b));
  }

  // ---------- reading in one chunk ----------

  lemma {:induction false} MembersUncut(t: string, cuts: set<nat>, i: nat)
    requires i <= |t| && forall c :: c in cuts ==> c >= |t|
    ensures !MembersCut(t, cuts, i)
    decreases |t| - i, 1
  {
    hide ScanValue, ReadArray;
    var j := Skip(t, i);
    if ReadKey(t, j).Done? {
      MemberUncut(t, cuts, ReadKey(t, j).value, Skip(t, ReadKey(t, j).end));
    }
  }

  lemma {:induction false} MemberUncut(t: string, cuts: set<nat>, key: seq<int>, p: nat)
    requires p <= |t| && forall c :: c in cuts ==> c >= |t|
    ensures !MemberCut(t, cuts, key, p)
    decreases |t| - p, 0
  {
    hide ScanValue, ReadArray;
    if key == SKILLS && p < |t| && t[p] == '[' {
      if ReadArray(t, p + 1).Done? {
        AfterUncut(t, cuts, ReadArray(t, p + 1).end);
      }
    } else if ScanValue(t, p).Done? {
      MembersUncut(t, cuts, ScanValue(t, p).end);
      AfterUncut(t, cuts, ScanValue(t, p).end);
    }
  }

  lemma {:induction false} AfterUncut(t: string, cuts: set<nat>, i: nat)
    requires i <= |t| && forall c :: c in cuts ==> c >= |t|
    ensures !AfterCut(t, cuts, i)
    decreases |t| - i, 2
  {
    hide ScanValue, ReadArray;
    var j := Skip(t, i);
    MembersUncut(t, cuts, j);
    if j < |t| && t[j] == ',' {
      MembersUncut(t, cuts, j + 1);
    }
  }

  // A file read in one chunk has no cut number.
  lemma OneChunkUncut(t: string)
    ensures !DirectNumberCut(Flatten([t]), Boundaries(0, [t]))
  {
    assert Flatten([t]) == t + Flatten([]) == t;
    assert Boundaries(0, [t]) == {|t|} + Boundaries(|t|, []) == {|t|};
    var i := Skip(t, 0);
    if i < |t| && t[i] == '{' {
      MembersUncut(t, {|t|}, i + 1);
    }
  }
}
