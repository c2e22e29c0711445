/**
 What chunk ends do to the reading of a skills index. The reader keeps the text up to some
 chunk end, refills when it needs more, and looks and decodes within what it has. Here its
 position and that chunk end are followed along the whole text, up to the first thing that
 goes wrong: a number read short, or a character hidden behind white space.
 */
module ChunkEnds {
  import opened JsonScanner
  import opened SkillsIndex

  // The first chunk end at or after x, or the end of the text.
  function EndFrom(t: string, cuts: set<nat>, x: nat): (k: nat)
    ensures k <= |t| && (x <= |t| ==> x <= k) && (k < |t| ==> k in cuts && x <= k)
    ensures forall c :: c in cuts && x <= c ==> k <= c
    decreases |t| - x
  {
    if x >= |t| then |t| else if x in cuts then x else EndFrom(t, cuts, x + 1)
  }

  // ---------- how far the text is read, from position i with the text up to b ----------

  // Where a look for the next character stops: at that character, unless the white space
  // before it reaches beyond the second chunk end met.
  function LookPos(t: string, cuts: set<nat>, i: nat, b: nat): (j: nat)
    requires i <= |t|
    ensures i <= j <= Skip(t, i)
  {
    var next := EndFrom(t, cuts, b + 1);
    if i <= next < Skip(t, i) then next else Skip(t, i)
  }

  // How far the text is then read.
  function LookEnd(t: string, cuts: set<nat>, i: nat, b: nat): (k: nat)
    requires i <= |t|
    ensures b <= |t| ==> k <= |t|
  {
    var p, next := Skip(t, i), EndFrom(t, cuts, b + 1);
    if p < b then b else if p < next then next else EndFrom(t, cuts, next + 1)
  }

  // The look stops in white space.
  predicate Astray(t: string, cuts: set<nat>, i: nat, b: nat)
    requires i <= |t|
  {
    LookPos(t, cuts, i, b) < Skip(t, i)
  }

  // When the value at p is first decoded, by a reader that stands at pos. Attempts in white
  // space fail, and each is followed by a chunk and by one more where that was white space.
  function TryEnd(t: string, cuts: set<nat>, p: nat, pos: nat, k: nat): (f: nat)
    ensures k <= |t| ==> k <= f <= |t|
    decreases |t| - k
  {
    if pos >= p || k >= |t| then k
    else
      var next := EndFrom(t, cuts, k + 1);
      if p < next then next else TryEnd(t, cuts, p, next, EndFrom(t, cuts, next + 1))
  }

  function FirstTry(t: string, cuts: set<nat>, i: nat, b: nat): (f: nat)
    requires i <= |t|
    ensures b <= |t| ==> b <= f <= |t|
  {
    if Skip(t, i) < b then b else TryEnd(t, cuts, Skip(t, i), b, EndFrom(t, cuts, b + 1))
  }

  // The same after a look.
  function LookTry(t: string, cuts: set<nat>, i: nat, b: nat): nat
    requires i <= |t|
  {
    FirstTry(t, cuts, LookPos(t, cuts, i, b), LookEnd(t, cuts, i, b))
  }

  // After a value that ends at e has been decoded, tried first with the text up to f.
  function DecodedEnd(t: string, cuts: set<nat>, f: nat, e: nat): nat {
    if e <= f then f else EndFrom(t, cuts, e)
  }

  // The key at p, tried first with the text up to f: how far the look behind it reads.
  function KeySeen(t: string, cuts: set<nat>, p: nat, f: nat): nat
    requires p <= |t|
  {
    match ScanValue(t, p)
    case Fail => f
    case Done(_, e) => LookEnd(t, cuts, e, DecodedEnd(t, cuts, f, e))
  }

  // The colon at q is skipped to once more when it has not been seen.
  predicate ColonMissed(seen: nat, q: nat) {
    q > seen
  }

  function ColonEnd(t: string, cuts: set<nat>, seen: nat, q: nat): nat {
    if q < seen then seen else EndFrom(t, cuts, seen + 1)
  }

  // After the array that `ReadArray` reads.
  function ArrayEnd(t: string, cuts: set<nat>, i: nat, b: nat): nat
    requires i <= |t|
    decreases |t| - i
  {
    var p, seen := Skip(t, i), LookEnd(t, cuts, i, b);
    if p == |t| || t[p] == ']' then seen
    else if t[p] == ',' then ArrayEnd(t, cuts, p + 1, seen)
    else match ScanValue(t, p)
      case Fail => seen
      case Done(v, e) => if v.Object? then ArrayEnd(t, cuts, e, DecodedEnd(t, cuts, LookTry(t, cuts, i, b), e)) else seen
  }

  // ---------- the first thing that goes wrong ----------

  datatype Mishap = Fine | ReadShort | Missed

  // The number spanning [p, e) has a chunk end after its first digit, not before the first attempt.
  ghost predicate CutFrom(t: string, cuts: set<nat>, f: nat, p: nat, e: nat)
    requires p < |t|
  {
    exists c :: c in cuts && f <= c && IntStart(t, p) < c < e
  }

  // In an array the loop itself has to see the bracket and the commas.
  function ArrayMishap(t: string, cuts: set<nat>, i: nat, b: nat): (m: Mishap)
    requires i <= |t|
    ensures !m.ReadShort?
    decreases |t| - i
  {
    var p, seen := Skip(t, i), LookEnd(t, cuts, i, b);
    if p == |t| then Fine
    else if t[p] == ']' || t[p] == ',' then
      if Astray(t, cuts, i, b) then Missed
      else if t[p] == ',' then ArrayMishap(t, cuts, p + 1, seen) else Fine
    else match ScanValue(t, p)
      case Fail => Fine
      case Done(v, e) =>
        if v.Object? then ArrayMishap(t, cuts, e, DecodedEnd(t, cuts, LookTry(t, cuts, i, b), e)) else Fine
  }

  // In the object: the closing brace before a key, and the colon after three looks.
  ghost function MembersMishap(t: string, cuts: set<nat>, i: nat, b: nat): Mishap
    requires i <= |t|
    decreases |t| - i, 1
  {
    var p := Skip(t, i);
    if p < |t| && t[p] == '}' then if Astray(t, cuts, i, b) then Missed else Fine
    else match ReadKey(t, p)
      case Fail => Fine
      case Done(key, e) =>
        var seen := KeySeen(t, cuts, p, LookTry(t, cuts, i, b));
        if ColonMissed(seen, e - 1) then Missed else MemberMishap(t, cuts, key, e, ColonEnd(t, cuts, seen, e - 1))
  }

  // The value of a key whose colon ends at i. Before a `skills` value the reader looks for
  // its first character; before any other it does not. A `skills` array whose bracket is
  // missed is decoded whole, and then no comma is looked for.
  ghost function MemberMishap(t: string, cuts: set<nat>, key: seq<int>, i: nat, b: nat): Mishap
    requires i <= |t|
    decreases |t| - i, 0
  {
    var p := Skip(t, i);
    if key == SKILLS && p < |t| && t[p] == '[' then
      match ReadArray(t, p + 1)
      case Fail => Fine
      case Done(_, e) =>
        if !Astray(t, cuts, i, b) then
          var seen := LookEnd(t, cuts, i, b);
          if ArrayMishap(t, cuts, p + 1, seen) != Fine then Missed
          else AfterMishap(t, cuts, e, ArrayEnd(t, cuts, p + 1, seen))
        else if ScanValue(t, p).Fail? || (Skip(t, e) < |t| && t[Skip(t, e)] == ',') then Missed
        else MembersMishap(t, cuts, e, DecodedEnd(t, cuts, LookTry(t, cuts, i, b), e))
    else
      match ScanValue(t, p)
      case Fail => Fine
      case Done(v, e) =>
        var f := if key == SKILLS then LookTry(t, cuts, i, b) else FirstTry(t, cuts, i, b);
        if v.Number? && CutFrom(t, cuts, f, p, e) then ReadShort
        else if key == SKILLS then MembersMishap(t, cuts, e, DecodedEnd(t, cuts, f, e))
        else AfterMishap(t, cuts, e, DecodedEnd(t, cuts, f, e))
  }

  // After a value the comma has to be seen; anything else is looked for again as a member.
  ghost function AfterMishap(t: string, cuts: set<nat>, i: nat, b: nat): Mishap
    requires i <= |t|
    decreases |t| - i, 2
  {
    var p, seen := Skip(t, i), LookEnd(t, cuts, i, b);
    if p < |t| && t[p] == ',' then
      if Astray(t, cuts, i, b) then Missed else MembersMishap(t, cuts, p + 1, seen)
    else MembersMishap(t, cuts, LookPos(t, cuts, i, b), seen)
  }

  // Reading a whole file: its first bracket has to be seen as well.
  ghost function ReadMishap(t: string, cuts: set<nat>): Mishap {
    var i, b := Skip(t, 0), EndFrom(t, cuts, 1);
    if i < |t| && (t[i] == '[' || t[i] == '{') then
      if Astray(t, cuts, 0, b) then Missed
      else if t[i] == '[' then ArrayMishap(t, cuts, i + 1, LookEnd(t, cuts, 0, b))
      else MembersMishap(t, cuts, i + 1, LookEnd(t, cuts, 0, b))
    else Fine
  }

  // White space at the start of the chunk behind the colon saves a number from the first
  // chunk end it meets: only a later one can cut it.
  lemma SpaceSparesCut(t: string, cuts: set<nat>, i: nat, b: nat, e: nat)
    requires i <= b < |t| && b < Skip(t, i) < EndFrom(t, cuts, b + 1) && Skip(t, i) < e <= |t|
    ensures var p := Skip(t, i);
            CutFrom(t, cuts, FirstTry(t, cuts, i, b), p, e)
            <==> exists c :: c in cuts && EndFrom(t, cuts, b + 1) < c && IntStart(t, p) < c < e
  {
    hide EndFrom, Skip;
    var f, next := FirstTry(t, cuts, i, b), EndFrom(t, cuts, b + 1);
    if c :| c in cuts && next < c && IntStart(t, Skip(t, i)) < c < e {
      assert f <= c;
    }
  }
}
