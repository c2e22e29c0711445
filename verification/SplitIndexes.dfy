/**
 Small indexes and how a split into chunks changes what is read. A number split at a chunk end
 is rejected, unless white space at the start of the chunk behind the colon saves it; white
 space that fills a chunk hides a bracket, but not inside a key.
 */
module SplitIndexes {
  import opened Prelude
  import opened JsonScanner
  import opened SkillsIndex
  import opened ChunkEnds
  import opened IndexSteps
  import opened Mishaps
  import opened StreamingReader

  // Digits that go on as one number wherever they are cut.
  predicate Digits(ds: string) {
    forall k :: 0 <= k < |ds| ==> Digit(ds[k])
  }

  // A key without escapes, other than `skills`.
  predicate PlainKey(key: string) {
    key != "skills" && forall k :: 0 <= k < |key| ==> key[k] >= ' ' && key[k] != '"' && key[k] != '\\'
  }

  // An object with that key, white space behind the colon, and a number of several digits.
  predicate OneNumber(t: string, key: string, m: nat, n: nat) {
    var q := |key| + 4;
    && |t| == q + m + n + 1 && n > 0
    && t[..2] == "{\"" && t[2..2 + |key|] == key && t[2 + |key|..q] == "\":"
    && Blank(t[q..q + m]) && Digits(t[q + m..q + m + n]) && t[q + m] != '0' && t[q + m + n] == '}'
  }

  lemma OneNumberLength(t: string, key: string, m: nat, n: nat)
    requires OneNumber(t, key, m, n)
    ensures |t| == |key| + 4 + m + n + 1 && n > 0
  {
  }

  lemma {:induction false} PlainString(t: string, i: nat, key: string)
    requires i + |key| < |t| && t[i..i + |key|] == key && t[i + |key|] == '"'
    requires forall k :: 0 <= k < |key| ==> key[k] >= ' ' && key[k] != '"' && key[k] != '\\'
    ensures ScanString(t, i) == Done(Codes(key), i + |key| + 1)
    decreases |key|
  {
    if key != "" {
      assert t[i] == t[i..i + |key|][0] == key[0];
      assert t[i + 1..i + 1 + |key[1..]|] == key[1..];
      PlainString(t, i + 1, key[1..]);
      assert Codes(key) == [key[0] as int] + Codes(key[1..]);
    }
  }

  lemma {:induction false} CodesDiffer(a: string, b: string)
    requires a != b
    ensures Codes(a) != Codes(b)
  {
    if |a| == |b| {
      var k :| 0 <= k < |a| && a[k] != b[k];
      assert Codes(a)[k] != Codes(b)[k];
    } else {
      assert |Codes(a)| != |Codes(b)|;
    }
  }

  lemma {:induction false} DigitsTo(t: string, i: nat, j: nat)
    requires i <= j < |t| && (forall k :: i <= k < j ==> Digit(t[k])) && !Digit(t[j])
    ensures DigitsEnd(t, i) == j
    decreases j - i
  {
    if i < j {
      DigitsTo(t, i + 1, j);
    }
  }

  lemma NumberRead(t: string, p: nat, e: nat)
    requires p < e < |t| && (forall k :: p <= k < e ==> Digit(t[k])) && t[p] != '0' && t[e] == '}'
    ensures ScanValue(t, p) == Done(Number(t[p..e]), e)
  {
    DigitsTo(t, p + 1, e);
    assert NumberEnd(t, p) == Some(e);
    ScanOfNumber(t, p);
  }

  lemma {:induction false} KeyRead(t: string, key: string, m: nat, n: nat)
    requires OneNumber(t, key, m, n) && PlainKey(key)
    ensures t[0] == '{' && t[1] == '"' && t[2 + |key|] == '"' && t[3 + |key|] == ':'
    ensures ScanValue(t, 1) == Done(Str(Codes(key)), |key| + 3)
    ensures ReadKey(t, 1) == Done(Codes(key), |key| + 4) && Codes(key) != SKILLS
  {
    assert t[0] == t[..2][0] && t[1] == t[..2][1];
    var quoted := t[2 + |key|..|key| + 4];
    assert t[2 + |key|] == quoted[0] && t[3 + |key|] == quoted[1];
    PlainString(t, 2, key);
    CodesDiffer(key, "skills");
    assert Skip(t, |key| + 3) == |key| + 3;
  }

  lemma {:induction false} NumberStands(t: string, key: string, m: nat, n: nat)
    requires OneNumber(t, key, m, n)
    ensures var p := |key| + 4 + m;
            && Skip(t, |key| + 4) == p && Digit(t[p]) && t[p + n] == '}'
            && ScanValue(t, p).Done? && ScanValue(t, p).value.Number? && ScanValue(t, p).end == p + n
  {
    var q := |key| + 4;
    var p := q + m;
    forall k | q <= k < p
      ensures IsSpace(t[k])
    {
      assert t[k] == t[q..p][k - q];
    }
    forall k | p <= k < p + n
      ensures Digit(t[k])
    {
      assert t[k] == t[p..p + n][k - p];
    }
    SkipTo(t, q, p);
    NumberRead(t, p, p + n);
  }

  // The only member of an object, with a number from p to e and a colon that ends at q.
  predicate OnlyMember(t: string, key: seq<int>, q: nat, e: nat) {
    && 1 < q <= |t| && Skip(t, q) < e < |t| && t[0] == '{' && t[e] == '}' && key != SKILLS
    && !IsSpace(t[1]) && t[1] != '}' && t[q - 1] == ':'
    && ScanValue(t, 1) == Done(Str(key), q - 1) && ReadKey(t, 1) == Done(key, q)
    && ScanValue(t, Skip(t, q)).Done? && ScanValue(t, Skip(t, q)).value.Number? && ScanValue(t, Skip(t, q)).end == e
  }

  lemma {:induction false} MemberStands(t: string, key: string, m: nat, n: nat)
    requires OneNumber(t, key, m, n) && PlainKey(key)
    ensures OnlyMember(t, Codes(key), |key| + 4, |key| + 4 + m + n) && Skip(t, |key| + 4) == |key| + 4 + m
  {
    hide ScanValue, ReadKey, Skip, OneNumber, PlainKey, Codes;
    OneNumberLength(t, key, m, n);
    KeyRead(t, key, m, n);
    NumberStands(t, key, m, n);
  }

  // The whole text is an index without entries.
  lemma {:induction false} MemberAccepted(t: string, key: seq<int>, q: nat, e: nat)
    requires OnlyMember(t, key, q, e)
    ensures ReadIndex(t) == Accept([])
  {
    hide ScanValue, ReadArray, ReadKey;
    var p := Skip(t, q);
    assert Skip(t, 0) == 0 && Skip(t, 1) == 1 && Skip(t, e) == e;
    assert AfterValue(t, e) == Accept([]);
    hide Skip, AfterValue;
    assert ReadMember(t, key, p) == Accept([]);
    hide ReadMember;
    assert ReadMembers(t, 1) == Accept([]);
  }

  // With the text read up to b behind the key, nothing but the number can go wrong.
  lemma OneMemberMishap(t: string, cuts: set<nat>, key: seq<int>, q: nat, b: nat, e: nat)
    requires q <= |t| && key != SKILLS && Skip(t, q) < e <= |t|
    requires ScanValue(t, Skip(t, q)).Done? && ScanValue(t, Skip(t, q)).value.Number? && ScanValue(t, Skip(t, q)).end == e
    requires AfterMishap(t, cuts, e, DecodedEnd(t, cuts, FirstTry(t, cuts, q, b), e)) == Fine && !AfterCut(t, cuts, e)
    ensures MemberMishap(t, cuts, key, q, b) == if CutFrom(t, cuts, FirstTry(t, cuts, q, b), Skip(t, q), e) then ReadShort else Fine
    ensures MemberCut(t, cuts, key, Skip(t, q)) <==> CutAfterDigit(t, cuts, Skip(t, q), e)
  {
    hide ScanValue, ReadArray, AfterMishap, AfterCut, CutFrom, CutAfterDigit, FirstTry, DecodedEnd, Skip, LookEnd, LookPos;
  }

  lemma BraceEnds(t: string, cuts: set<nat>, e: nat, b: nat)
    requires e < |t| && t[e] == '}'
    ensures AfterMishap(t, cuts, e, b) == Fine && !AfterCut(t, cuts, e)
  {
    hide EndFrom, ReadKey;
    assert Skip(t, e) == e;
  }

  // How far the text is read once the colon before q has been seen, when the first chunk ends at b.
  function ColonRead(t: string, cuts: set<nat>, q: nat, b: nat): nat
    requires 0 < q <= |t|
  {
    LookEnd(t, cuts, q - 1, DecodedEnd(t, cuts, b, q - 1))
  }

  lemma ColonIsSeen(t: string, cuts: set<nat>, q: nat, b: nat)
    requires 0 < q <= |t| && t[q - 1] == ':' && b <= |t|
    ensures q - 1 < ColonRead(t, cuts, q, b) <= |t|
    ensures b >= q ==> ColonRead(t, cuts, q, b) == b
  {
    hide EndFrom;
    assert Skip(t, q - 1) == q - 1;
  }

  // The number is read short exactly if it is cut from where it is tried first.
  lemma {:induction false} MemberCourse(t: string, cuts: set<nat>, key: seq<int>, q: nat, e: nat, b: nat)
    requires OnlyMember(t, key, q, e) && b == EndFrom(t, cuts, 1) && b >= 2
    ensures ReadMishap(t, cuts) ==
            if CutFrom(t, cuts, FirstTry(t, cuts, q, ColonRead(t, cuts, q, b)), Skip(t, q), e) then ReadShort else Fine
  {
    hide ScanValue, ReadArray, ReadKey, EndFrom, CutFrom, FirstTry, ColonRead, AfterMishap, AfterCut, MemberMishap, ArrayMishap;
    var seen := ColonRead(t, cuts, q, b);
    ColonIsSeen(t, cuts, q, b);
    BraceEnds(t, cuts, e, DecodedEnd(t, cuts, FirstTry(t, cuts, q, seen), e));
    OneMemberMishap(t, cuts, key, q, seen, e);
    InSight(t, cuts, 0, b);
    InSight(t, cuts, 1, b);
    assert Skip(t, 0) == 0 && Skip(t, 1) == 1;
    KeyCourse(t, cuts, q, b);
    hide Skip, LookEnd, LookTry, Astray, KeySeen;
    assert MembersMishap(t, cuts, 1, b) == MemberMishap(t, cuts, key, q, seen);
  }

  lemma InSight(t: string, cuts: set<nat>, i: nat, b: nat)
    requires i < b <= |t| && !IsSpace(t[i])
    ensures !Astray(t, cuts, i, b) && LookEnd(t, cuts, i, b) == b && LookTry(t, cuts, i, b) == b
  {
    hide EndFrom;
    assert Skip(t, i) == i;
  }

  lemma KeyCourse(t: string, cuts: set<nat>, q: nat, b: nat)
    requires 1 < q <= |t| && ScanValue(t, 1).Done? && ScanValue(t, 1).end == q - 1
    requires q - 1 < ColonRead(t, cuts, q, b)
    ensures KeySeen(t, cuts, 1, b) == ColonRead(t, cuts, q, b)
    ensures !ColonMissed(KeySeen(t, cuts, 1, b), q - 1)
    ensures ColonEnd(t, cuts, KeySeen(t, cuts, 1, b), q - 1) == ColonRead(t, cuts, q, b)
  {
    hide ScanValue, EndFrom;
  }

  lemma {:induction false} MemberIsCut(t: string, cuts: set<nat>, key: seq<int>, q: nat, e: nat)
    requires OnlyMember(t, key, q, e)
    ensures DirectNumberCut(t, cuts) <==> CutAfterDigit(t, cuts, Skip(t, q), e)
  {
    hide ScanValue, ReadArray, ReadKey, CutFrom, FirstTry, AfterMishap, AfterCut, DecodedEnd;
    BraceEnds(t, cuts, e, DecodedEnd(t, cuts, FirstTry(t, cuts, q, q), e));
    OneMemberMishap(t, cuts, key, q, q, e);
    assert Skip(t, 0) == 0 && Skip(t, 1) == 1;
    hide MemberCut, Skip;
    assert MembersCut(t, cuts, 1) == MemberCut(t, cuts, key, Skip(t, q));
  }

  // ---------- splits ----------

  lemma TwoChunks(x: string, y: string)
    ensures Flatten([x, y]) == x + y
    ensures Boundaries(0, [x, y]) == {|x|, |x| + |y|}
  {
    assert [x, y][1..] == [y] && [y][1..] == [];
    assert Flatten([y]) == y + Flatten([]) == y;
    assert Boundaries(|x|, [y]) == {|x| + |y|} + Boundaries(|x| + |y|, []);
  }

  lemma ThreeChunks(x: string, y: string, z: string)
    ensures Flatten([x, y, z]) == x + y + z
    ensures Boundaries(0, [x, y, z]) == {|x|, |x| + |y|, |x| + |y| + |z|}
  {
    assert [x, y, z][1..] == [y, z] && [y, z][1..] == [z] && [z][1..] == [];
    assert Flatten([z]) == z + Flatten([]) == z;
    assert Flatten([y, z]) == y + z;
    assert Boundaries(|x| + |y|, [z]) == {|x| + |y| + |z|} + Boundaries(|x| + |y| + |z|, []);
    assert Boundaries(|x|, [y, z]) == {|x| + |y|} + Boundaries(|x| + |y|, [z]);
  }

  lemma StartsLike(t: string, key: string, space: string, xs: string, ys: string)
    requires t == "{\"" + key + "\":" + space + xs + ys + "}"
    requires Blank(space) && Digits(xs) && Digits(ys) && xs != "" && xs[0] != '0'
    ensures OneNumber(t, key, |space|, |xs| + |ys|)
  {
    var q, p := |key| + 4, |key| + 4 + |space|;
    assert t[q..p] == space && t[p..p + |xs| + |ys|] == xs + ys;
    assert t[2..2 + |key|] == key && t[2 + |key|..q] == "\":";
  }

  lemma {:induction false} SplitIsShort(t: string, cuts: set<nat>, key: string, n: nat, c: nat)
    requires OneNumber(t, key, 0, n) && PlainKey(key)
    requires |key| + 4 < c < |key| + 4 + n && cuts == {c, |t|}
    ensures ReadIndex(t) == Accept([]) && NumberReadShort(t, cuts)
  {
    hide OneNumber, PlainKey, OnlyMember, Skip, ScanValue, ReadMishap, ReadIndex, Codes, CutFrom, ColonRead;
    var q := |key| + 4;
    OneNumberLength(t, key, 0, n);
    KeyRead(t, key, 0, n);
    MemberStands(t, key, 0, n);
    NumberStands(t, key, 0, n);
    MemberAccepted(t, Codes(key), q, q + n);
    SplitCut(t, cuts, q, c, q + n);
    ColonIsSeen(t, cuts, q, c);
    MemberCourse(t, cuts, Codes(key), q, q + n, c);
  }

  lemma SplitCut(t: string, cuts: set<nat>, q: nat, c: nat, e: nat)
    requires 0 < q < c < e < |t| && cuts == {c, |t|} && Digit(t[q])
    ensures EndFrom(t, cuts, 1) == c && CutFrom(t, cuts, c, q, e) && FirstTry(t, cuts, q, c) == c
  {
    hide EndFrom;
    assert Skip(t, q) == q;
    assert c in cuts;
  }

  // A number that the end of the first chunk splits, however long the chunk is.
  method CutNumberBreaks(key: string, xs: string, ys: string) returns (file: seq<string>, out: Outcome)
    requires PlainKey(key) && Digits(xs) && Digits(ys) && xs != "" && ys != "" && xs[0] != '0'
    ensures file == ["{\"" + key + "\":" + xs, ys + "}"]
    ensures |ys| < |file[0]| ==> ReadBy(|file[0]|, file)
    ensures ReadIndex(Flatten(file)) == Accept([]) && out == Reject
  {
    hide ReadIndex, ReadMishap, DirectNumberCut, HidesBracket, Digits;
    var start := "{\"" + key + "\":" + xs;
    file := [start, ys + "}"];
    TwoChunks(start, ys + "}");
    ghost var t := Flatten(file);
    assert t == "{\"" + key + "\":" + xs + ys + "}";
    StartsLike(t, key, "", xs, ys);
    SplitIsShort(t, Boundaries(0, file), key, |xs| + |ys|, |start|);
    hide PlainKey, Flatten, Boundaries;
    out := ReadFile(file);
  }

  // Chunk ends at the colon, inside the number behind white space, and at the end.
  lemma SpacedCuts(t: string, cuts: set<nat>, q: nat, p: nat, c: nat, e: nat)
    requires 0 < q < p < c < e < |t| && cuts == {q, c, |t|} && Skip(t, q) == p && Digit(t[p])
    ensures EndFrom(t, cuts, 1) == q
    ensures !CutFrom(t, cuts, FirstTry(t, cuts, q, q), p, e) && CutAfterDigit(t, cuts, p, e)
  {
    hide EndFrom, Skip;
    assert EndFrom(t, cuts, q + 1) == c && EndFrom(t, cuts, c + 1) == |t|;
    assert c in cuts;
  }

  lemma {:induction false} SpacedIsNotShort(t: string, cuts: set<nat>, key: string, m: nat, n: nat, c: nat)
    requires OneNumber(t, key, m, n) && PlainKey(key) && m > 0
    requires |key| + 4 + m < c < |key| + 4 + m + n && cuts == {|key| + 4, c, |t|}
    ensures ReadIndex(t) == Accept([]) && ReadMishap(t, cuts) == Fine && DirectNumberCut(t, cuts)
  {
    hide OneNumber, PlainKey, OnlyMember, Skip, ScanValue, EndFrom, ReadMishap, DirectNumberCut, ReadIndex;
    hide CutFrom, CutAfterDigit, FirstTry, Codes, ColonRead;
    var q := |key| + 4;
    OneNumberLength(t, key, m, n);
    KeyRead(t, key, m, n);
    MemberStands(t, key, m, n);
    NumberStands(t, key, m, n);
    MemberAccepted(t, Codes(key), q, q + m + n);
    SpacedCuts(t, cuts, q, q + m, c, q + m + n);
    ColonIsSeen(t, cuts, q, q);
    MemberCourse(t, cuts, Codes(key), q, q + m + n, q);
    MemberIsCut(t, cuts, Codes(key), q, q + m + n);
  }

  // The same number, split at the same digit: with a chunk that ends at the colon and white
  // space behind it, the index is read right, although a chunk end cuts the number.
  method SpacedNumberIsRead(key: string, space: string, xs: string, ys: string) returns (file: seq<string>, out: Outcome)
    requires PlainKey(key) && Digits(xs) && Digits(ys) && xs != "" && ys != "" && xs[0] != '0'
    requires space != "" && Blank(space)
    ensures file == ["{\"" + key + "\":", space + xs, ys + "}"]
    ensures DirectNumberCut(Flatten(file), Boundaries(0, file))
    ensures out == ReadIndex(Flatten(file)) == Accept([])
  {
    hide ReadIndex, ReadMishap, DirectNumberCut, HidesBracket;
    var start := "{\"" + key + "\":";
    file := [start, space + xs, ys + "}"];
    ThreeChunks(start, space + xs, ys + "}");
    ghost var t := Flatten(file);
    assert t == "{\"" + key + "\":" + space + xs + ys + "}";
    StartsLike(t, key, space, xs, ys);
    SpacedIsNotShort(t, Boundaries(0, file), key, |space|, |xs| + |ys|, |start| + |space| + |xs|);
    hide PlainKey, Flatten, Boundaries, Digits, Blank;
    out := ReadFile(file);
  }

  // ---------- white space that fills a chunk ----------

  lemma {:induction false} BlankKeyCourse(t: string, cuts: set<nat>, key: string, n: nat, b: nat, c: nat)
    requires OneNumber(t, key, 0, n) && PlainKey(key)
    requires 2 <= b < c < |key| + 3 && cuts == {b, c, |t|}
    ensures ReadIndex(t) == Accept([]) && ReadMishap(t, cuts) == Fine
  {
    hide OneNumber, PlainKey, OnlyMember, Skip, ScanValue, ReadMishap, ReadIndex, Codes, FirstTry, CutFrom;
    var q := |key| + 4;
    OneNumberLength(t, key, 0, n);
    KeyRead(t, key, 0, n);
    MemberStands(t, key, 0, n);
    MemberAccepted(t, Codes(key), q, q + n);
    ReadBehind(t, cuts, q, b, c);
    MemberCourse(t, cuts, Codes(key), q, q + n, b);
    NotCutAtEnd(t, cuts, q, q + n);
  }

  lemma ReadBehind(t: string, cuts: set<nat>, q: nat, b: nat, c: nat)
    requires 2 <= b < c < q - 1 && q < |t| && cuts == {b, c, |t|} && t[q - 1] == ':'
    ensures EndFrom(t, cuts, 1) == b && ColonRead(t, cuts, q, b) == |t|
  {
    hide EndFrom;
    assert b in cuts;
    assert Skip(t, q - 1) == q - 1;
  }

  lemma NotCutAtEnd(t: string, cuts: set<nat>, q: nat, e: nat)
    requires q < |t| && Skip(t, q) < e <= |t|
    ensures FirstTry(t, cuts, q, |t|) == |t| && !CutFrom(t, cuts, |t|, Skip(t, q), e)
  {
  }

  // A blank chunk inside a key is read right, however many there are characters of it.
  method BlankInKeyIsRead(before: string, blank: string, after: string, xs: string) returns (file: seq<string>, out: Outcome)
    requires PlainKey(before + blank + after) && blank != "" && Blank(blank)
    requires Digits(xs) && xs != "" && xs[0] != '0'
    ensures file == ["{\"" + before, blank, after + "\":" + xs + "}"] && !NoBlankInside(file)
    ensures out == ReadIndex(Flatten(file)) == Accept([])
  {
    hide ReadIndex, ReadMishap, DirectNumberCut, HidesBracket, PlainKey, Digits;
    file := ["{\"" + before, blank, after + "\":" + xs + "}"];
    ThreeChunks("{\"" + before, blank, after + "\":" + xs + "}");
    ghost var t, key := Flatten(file), before + blank + after;
    assert t == "{\"" + key + "\":" + "" + xs + "" + "}";
    NoDigits();
    StartsLike(t, key, "", xs, "");
    BlankKeyCourse(t, Boundaries(0, file), key, |xs|, |before| + 2, |before| + 2 + |blank|);
    assert Blank(file[1]);
    hide Flatten, Boundaries, Blank;
    out := ReadFile(file);
  }

  lemma NoDigits()
    ensures Digits("") && Blank("")
  {
  }

  // An opening bracket, white space twice over, and a closing bracket in the last chunk.
  lemma {:induction false} BlankIndex(blank: string)
    requires |blank| >= 2 && Blank(blank)
    ensures var file := ["[" + blank[1..], blank, " ]"];
            ReadIndex(Flatten(file)) == Accept([]) && HidesBracket(Flatten(file), file)
  {
    hide ScanValue, ReadMembers;
    var file := ["[" + blank[1..], blank, " ]"];
    var text, k := "[" + blank[1..] + blank + " ]", 2 * |blank|;
    ThreeChunks("[" + blank[1..], blank, " ]");
    hide Flatten, Boundaries;
    assert text[k] == ' ' && text[k + 1] == ']';
    SkipTo(text, 1, k + 1);
    SkipTo(text, k, k + 1);
    assert Skip(text, 1) == k + 1 && Skip(text, k) == k + 1;
    assert ReadArray(text, 1) == Done([], k + 2);
    assert file[0][1..] == blank[1..];
  }

  // The condition on missed characters cannot be dropped, however large the reads are and
  // whatever white space it is: an empty index with enough of it is read right at once and
  // rejected in chunks.
  method BlankChunkBreaks(blank: string) returns (file: seq<string>, out: Outcome)
    requires |blank| >= 2 && Blank(blank)
    ensures file == ["[" + blank[1..], blank, " ]"] && ReadBy(|blank|, file)
    ensures ReadIndex(Flatten(file)) == Accept([])
    ensures out == Reject
  {
    hide ReadIndex, ReadMishap, HidesBracket, Flatten, Boundaries;
    BlankIndex(blank);
    file := ["[" + blank[1..], blank, " ]"];
    out := ReadFile(file);
  }

  lemma {:induction false} BlankStartMissed(t: string, cuts: set<nat>, n: nat)
    requires n > 0 && |t| == 2 * n + 3 && Blank(t[..2 * n + 1]) && t[2 * n + 1] == '[' && t[2 * n + 2] == ']'
    requires cuts == {n, 2 * n, |t|}
    ensures ReadIndex(t) == Accept([]) && CharacterMissed(t, cuts)
  {
    hide ScanValue, ReadMembers, EndFrom, ArrayMishap, MembersMishap;
    var p := 2 * n + 1;
    forall k | 0 <= k < p
      ensures IsSpace(t[k])
    {
      assert t[k] == t[..p][k];
    }
    SkipTo(t, 0, p);
    assert Skip(t, p) == p && Skip(t, p + 1) == p + 1;
    assert ReadArray(t, p + 1) == Done([], p + 2);
    assert n in cuts && EndFrom(t, cuts, 1) == n && 2 * n in cuts && EndFrom(t, cuts, n + 1) == 2 * n;
  }

  // White space before the first bracket that reaches over two chunks is not skipped.
  method BlankStartBreaks(blank: string) returns (file: seq<string>, out: Outcome)
    requires blank != "" && Blank(blank)
    ensures file == [blank, blank, " []"] && (|blank| >= 3 ==> ReadBy(|blank|, file))
    ensures ReadIndex(Flatten(file)) == Accept([])
    ensures out == Reject
  {
    hide ReadIndex, ReadMishap, HidesBracket;
    file := [blank, blank, " []"];
    ThreeChunks(blank, blank, " []");
    ghost var t, n := Flatten(file), |blank|;
    assert t[..2 * n + 1] == blank + blank + " ";
    BlankStartMissed(t, Boundaries(0, file), n);
    hide Flatten, Boundaries, Blank;
    out := ReadFile(file);
  }
}
