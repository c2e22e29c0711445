/**
 What reading a skills index means on the whole text at once: the entries of a top-level
 array, or of the `skills` arrays of a top-level object, with the reader's leniency about
 commas. Beside it stand the numbers that are direct values of the top-level object and that
 chunk ends cut after their first digit.
 */
module SkillsIndex {
  import opened JsonScanner

  // Reject stands for the single error "skills_index.json is not valid JSON".
  datatype Outcome = Reject | Accept(entries: seq<Value>)

  function Codes(s: string): seq<int> {
    seq(|s|, i requires 0 <= i < |s| => s[i] as int)
  }

  const SKILLS: seq<int> := Codes("skills")

  // `str.isspace`, which covers more than the white space of JSON.
  predicate IsSpace(c: char) {
    var n := c as int;
    || 9 <= n <= 13
    || 28 <= n <= 32
    || n in {0x85, 0xA0, 0x1680, 0x2028, 0x2029, 0x202F, 0x205F, 0x3000}
    || 0x2000 <= n <= 0x200A
  }

  // The 29 characters of Unicode that are white space, separators of lines and of units included.
  const SPACES: string :=
    "\t\n\U{0B}\U{0C}\r\U{1C}\U{1D}\U{1E}\U{1F} \U{85}\U{A0}\U{1680}"
    + ("\U{2000}\U{2001}\U{2002}\U{2003}\U{2004}\U{2005}\U{2006}\U{2007}\U{2008}\U{2009}\U{200A}"
       + "\U{2028}\U{2029}\U{202F}\U{205F}\U{3000}")

  lemma SpaceTable(c: char)
    ensures IsSpace(c) <==> c in SPACES
    ensures JsonSpace(c) <==> c in "\t\n\r "
  {
    if IsSpace(c) {
      assert c in SPACES by {
        if 0x2000 <= c as int <= 0x200A {
          assert c in "\U{2000}\U{2001}\U{2002}\U{2003}\U{2004}\U{2005}\U{2006}\U{2007}\U{2008}\U{2009}\U{200A}";
        } else if c as int < 0x2000 {
          assert c in "\t\n\U{0B}\U{0C}\r\U{1C}\U{1D}\U{1E}\U{1F} \U{85}\U{A0}\U{1680}";
        } else {
          assert c in "\U{2028}\U{2029}\U{202F}\U{205F}\U{3000}";
        }
      }
    }
  }

  function Skip(t: string, i: nat): (j: nat)
    requires i <= |t|
    ensures i <= j <= |t|
    ensures j < |t| ==> !IsSpace(t[j])
    decreases |t| - i
  {
    if i < |t| && IsSpace(t[i]) then Skip(t, i + 1) else i
  }

  function Join(es: seq<Value>, rest: Outcome): (r: Outcome)
    ensures rest.Reject? ==> r.Reject?
    ensures rest.Accept? ==> r == Accept(es + rest.entries)
  {
    match rest
    case Reject => Reject
    case Accept(more) => Accept(es + more)
  }

  // The entries of an array up to its closing bracket; commas may be missing or repeated.
  function ReadArray(t: string, i: nat): (r: Scan<seq<Value>>)
    requires i <= |t|
    ensures r.Done? ==> i < r.end <= |t|
    decreases |t| - i
  {
    var j := Skip(t, i);
    if j == |t| then Fail
    else if t[j] == ']' then Done([], j + 1)
    else if t[j] == ',' then ReadArray(t, j + 1)
    else match ScanValue(t, j)
      case Fail => Fail
      case Done(v, e) => if v.Object? then Prepend(v, ReadArray(t, e)) else Fail
  }

  // A string key at j and its colon; the value comes after that, behind white space.
  function ReadKey(t: string, j: nat): (r: Scan<seq<int>>)
    requires j <= |t|
    ensures r.Done? ==> j < r.end <= |t|
  {
    match ScanValue(t, j)
    case Fail => Fail
    case Done(key, e) =>
      var k := Skip(t, e);
      if key.Str? && k < |t| && t[k] == ':' then Done(key.codes, k + 1) else Fail
  }

  // The entries found from position i inside the top-level object.
  function ReadMembers(t: string, i: nat): Outcome
    requires i <= |t|
    decreases |t| - i, 1
  {
    var j := Skip(t, i);
    if j < |t| && t[j] == '}' then Accept([])
    else match ReadKey(t, j)
      case Fail => Reject
      case Done(key, e) => ReadMember(t, key, Skip(t, e))
  }

  // The value at p of the key just read, and what follows it.
  function ReadMember(t: string, key: seq<int>, p: nat): Outcome
    requires p <= |t|
    decreases |t| - p, 0
  {
    if key == SKILLS && p < |t| && t[p] == '[' then
      match ReadArray(t, p + 1)
      case Fail => Reject
      case Done(es, e) => Join(es, AfterValue(t, e))
    else
      match ScanValue(t, p)
      case Fail => Reject
      // A `skills` value that is not an array is dropped without looking for a comma.
      case Done(_, e) => if key == SKILLS then ReadMembers(t, e) else AfterValue(t, e)
  }

  function AfterValue(t: string, i: nat): Outcome
    requires i <= |t|
    decreases |t| - i, 2
  {
    var j := Skip(t, i);
    if j < |t| && t[j] == ',' then ReadMembers(t, j + 1)
    else if j < |t| && t[j] == '}' then Accept([])
    else ReadMembers(t, j)
  }

  function ReadIndex(t: string): Outcome {
    var i := Skip(t, 0);
    if i == |t| then Reject
    else if t[i] == '[' then
      match ReadArray(t, i + 1)
      case Fail => Reject
      case Done(es, _) => Accept(es)
    else if t[i] == '{' then ReadMembers(t, i + 1)
    else Reject
  }

  // ---------- numbers that chunk ends cut ----------

  // The number spanning [p, e) has a chunk end after its first digit.
  ghost predicate CutAfterDigit(t: string, cuts: set<nat>, p: nat, e: nat)
    requires p < |t|
  {
    exists c :: c in cuts && IntStart(t, p) < c < e
  }

  // Some number that the read meets as a direct value of the top-level object is cut.
  ghost predicate MembersCut(t: string, cuts: set<nat>, i: nat)
    requires i <= |t|
    decreases |t| - i, 1
  {
    var j := Skip(t, i);
    if j < |t| && t[j] == '}' then false
    else match ReadKey(t, j)
      case Fail => false
      case Done(key, e) => MemberCut(t, cuts, key, Skip(t, e))
  }

  ghost predicate MemberCut(t: string, cuts: set<nat>, key: seq<int>, p: nat)
    requires p <= |t|
    decreases |t| - p, 0
  {
    if key == SKILLS && p < |t| && t[p] == '[' then
      match ReadArray(t, p + 1)
      case Fail => false
      case Done(_, e) => AfterCut(t, cuts, e)
    else
      match ScanValue(t, p)
      case Fail => false
      case Done(v, e) =>
        || (v.Number? && CutAfterDigit(t, cuts, p, e))
        || (if key == SKILLS then MembersCut(t, cuts, e) else AfterCut(t, cuts, e))
  }

  ghost predicate AfterCut(t: string, cuts: set<nat>, i: nat)
    requires i <= |t|
    decreases |t| - i, 2
  {
    var j := Skip(t, i);
    if j < |t| && t[j] == ',' then MembersCut(t, cuts, j + 1)
    else if j < |t| && t[j] == '}' then false
    else MembersCut(t, cuts, j)
  }

  ghost predicate DirectNumberCut(t: string, cuts: set<nat>) {
    var i := Skip(t, 0);
    i < |t| && t[i] == '{' && MembersCut(t, cuts, i + 1)
  }
}
