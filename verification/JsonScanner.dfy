/**
 The JSON scanner behind `json.JSONDecoder.raw_decode`, as used by the skills index
 reader: a value is scanned from a position of a text and ends at a later position.
 The lemmas say how a scan changes when the text is cut short or grows.
 */
module JsonScanner {
  import opened Prelude

  // Strings are sequences of code points, because an escape may denote a lone surrogate.
  // Numbers keep their spelling; how a spelling becomes an int or a float does not matter here.
  datatype Value =
    | Null
    | Bool(b: bool)
    | Number(lexeme: string)
    | Special(name: string)
    | Str(codes: seq<int>)
    | Array(items: seq<Value>)
    | Object(members: seq<Member>)

  datatype Member = Member(key: seq<int>, value: Value)

  datatype Scan<+T> = Fail | Done(value: T, end: nat)

  // ---------- characters ----------

  predicate JsonSpace(c: char) { c == ' ' || c == '\t' || c == '\n' || c == '\r' }

  predicate Digit(c: char) { '0' <= c <= '9' }

  // The characters with which a cut number can continue.
  predicate NumberTail(c: char) { Digit(c) || c == '.' || c == 'e' || c == 'E' }

  function HexDigit(c: char): (r: Option<int>)
    ensures r.Some? ==> 0 <= r.value < 16
  {
    if Digit(c) then Some(c as int - '0' as int)
    else if 'a' <= c <= 'f' then Some(c as int - 'a' as int + 10)
    else if 'A' <= c <= 'F' then Some(c as int - 'A' as int + 10)
    else None
  }

  // ---------- white space, literals, numbers ----------

  function SkipSpace(s: string, i: nat): (j: nat)
    requires i <= |s|
    ensures i <= j <= |s|
    ensures j < |s| ==> !JsonSpace(s[j])
    ensures i < j ==> JsonSpace(s[i])
    decreases |s| - i
  {
    if i < |s| && JsonSpace(s[i]) then SkipSpace(s, i + 1) else i
  }

  predicate Matches(s: string, i: nat, word: string) {
    i + |word| <= |s| && s[i..i + |word|] == word
  }

  function DigitsEnd(s: string, i: nat): (j: nat)
    requires i <= |s|
    ensures i <= j <= |s|
    ensures j < |s| ==> !Digit(s[j])
    ensures forall k :: i <= k < j ==> Digit(s[k])
    decreases |s| - i
  {
    if i < |s| && Digit(s[i]) then DigitsEnd(s, i + 1) else i
  }

  // Where the integer part of a number starts: after an optional minus sign.
  function IntStart(s: string, i: nat): nat
    requires i < |s|
  {
    if s[i] == '-' then i + 1 else i
  }

  function IntEnd(s: string, i: nat): (r: Option<nat>)
    requires i < |s|
    ensures r.Some? ==> IntStart(s, i) < r.value <= |s|
  {
    var j := IntStart(s, i);
    if j >= |s| || !Digit(s[j]) then None
    else if s[j] == '0' then Some(j + 1)
    else Some(DigitsEnd(s, j + 1))
  }

  // A fraction is read only when a digit follows the point.
  function FractionEnd(s: string, i: nat): (j: nat)
    requires i <= |s|
    ensures i <= j <= |s|
  {
    if i + 1 < |s| && s[i] == '.' && Digit(s[i + 1]) then DigitsEnd(s, i + 2) else i
  }

  // An exponent without digits is given back.
  function ExponentEnd(s: string, i: nat): (j: nat)
    requires i <= |s|
    ensures i <= j <= |s|
  {
    if i + 1 < |s| && (s[i] == 'e' || s[i] == 'E') then
      var m := if i + 2 < |s| && (s[i + 1] == '+' || s[i + 1] == '-') then i + 2 else i + 1;
      var d := DigitsEnd(s, m);
      if d > m then d else i
    else i
  }

  function NumberEnd(s: string, i: nat): (r: Option<nat>)
    requires i < |s|
    ensures r.Some? ==> IntStart(s, i) < r.value <= |s|
  {
    match IntEnd(s, i)
    case None => None
    case Some(j) => Some(ExponentEnd(s, FractionEnd(s, j)))
  }

  // ---------- strings ----------

  // Four hex digits; a character must follow them.
  function HexQuad(s: string, i: nat): (r: Option<int>)
    ensures r.Some? ==> i + 4 < |s|
  {
    if i + 4 < |s| then
      match (HexDigit(s[i]), HexDigit(s[i + 1]), HexDigit(s[i + 2]), HexDigit(s[i + 3]))
      case (Some(a), Some(b), Some(c), Some(d)) => Some(((a * 16 + b) * 16 + c) * 16 + d)
      case _ => None
    else None
  }

  function SimpleEscape(c: char): Option<int> {
    match c
    case '"' => Some('"' as int)
    case '\\' => Some('\\' as int)
    case '/' => Some('/' as int)
    case 'b' => Some(8)
    case 'f' => Some(12)
    case 'n' => Some(10)
    case 'r' => Some(13)
    case 't' => Some(9)
    case _ => None
  }

  // The escape whose backslash is at i: one code point and where the string goes on.
  // A high surrogate followed by an escaped low surrogate is joined with it.
  function ScanEscape(s: string, i: nat): (r: Scan<int>)
    requires i < |s|
    ensures r.Done? ==> i + 2 <= r.end <= |s|
  {
    if i + 1 >= |s| then Fail
    else if s[i + 1] != 'u' then
      match SimpleEscape(s[i + 1])
      case None => Fail
      case Some(code) => Done(code, i + 2)
    else
      match HexQuad(s, i + 2)
      case None => Fail
      case Some(hi) =>
        if 0xD800 <= hi <= 0xDBFF && i + 7 < |s| && s[i + 6] == '\\' && s[i + 7] == 'u' then
          match HexQuad(s, i + 8)
          case None => Fail
          case Some(lo) =>
            if 0xDC00 <= lo <= 0xDFFF
            then Done(0x10000 + (hi - 0xD800) * 0x400 + (lo - 0xDC00), i + 12)
            else Done(hi, i + 6)
        else Done(hi, i + 6)
  }

  // The rest of a string whose opening quote has been read; control characters are refused.
  function ScanString(s: string, i: nat): (r: Scan<seq<int>>)
    requires i <= |s|
    ensures r.Done? ==> i < r.end <= |s|
    decreases |s| - i
  {
    if i >= |s| then Fail
    else if s[i] == '"' then Done([], i + 1)
    else if s[i] == '\\' then
      match ScanEscape(s, i)
      case Fail => Fail
      case Done(code, next) => Prepend(code, ScanString(s, next))
    else if s[i] < ' ' then Fail
    else Prepend(s[i] as int, ScanString(s, i + 1))
  }

  function Prepend<T>(x: T, rest: Scan<seq<T>>): (r: Scan<seq<T>>)
    ensures r.Done? <==> rest.Done?
    ensures rest.Done? ==> r == Done([x] + rest.value, rest.end)
  {
    match rest
    case Fail => Fail
    case Done(xs, e) => Done([x] + xs, e)
  }

  // ---------- values ----------

  function ScanLiteral(s: string, i: nat, word: string, value: Value): (r: Scan<Value>)
    ensures r.Done? ==> r.end == i + |word| <= |s|
  {
    if Matches(s, i, word) then Done(value, i + |word|) else Fail
  }

  function ScanNumber(s: string, i: nat): (r: Scan<Value>)
    requires i < |s|
    ensures r.Done? ==> i < r.end <= |s| && r.value == Number(s[i..r.end])
  {
    match NumberEnd(s, i)
    case None => Fail
    case Some(e) => Done(Number(s[i..e]), e)
  }

  // A value that is one word: a literal, one of Python's three special floats, or a number.
  function ScanScalar(s: string, i: nat): (r: Scan<Value>)
    requires i < |s|
    ensures r.Done? ==> i < r.end <= |s|
  {
    match s[i]
    case 'n' => ScanLiteral(s, i, "null", Null)
    case 't' => ScanLiteral(s, i, "true", Bool(true))
    case 'f' => ScanLiteral(s, i, "false", Bool(false))
    case 'N' => ScanLiteral(s, i, "NaN", Special("NaN"))
    case 'I' => ScanLiteral(s, i, "Infinity", Special("Infinity"))
    case _ =>
      if s[i] == '-' && Matches(s, i, "-Infinity") then Done(Special("-Infinity"), i + 9)
      else ScanNumber(s, i)
  }

  function ScanValue(s: string, i: nat): (r: Scan<Value>)
    requires i <= |s|
    ensures r.Done? ==> i < r.end <= |s|
    decreases |s| - i, 0
  {
    if i >= |s| then Fail
    else match s[i]
      case '"' =>
        (match ScanString(s, i + 1)
         case Fail => Fail
         case Done(codes, e) => Done(Str(codes), e))
      case '{' =>
        var j := SkipSpace(s, i + 1);
        if j < |s| && s[j] == '}' then Done(Object([]), j + 1)
        else
          (match ScanMembers(s, j)
           case Fail => Fail
           case Done(members, e) => Done(Object(members), e))
      case '[' =>
        var j := SkipSpace(s, i + 1);
        if j < |s| && s[j] == ']' then Done(Array([]), j + 1)
        else
          (match ScanItems(s, j)
           case Fail => Fail
           case Done(items, e) => Done(Array(items), e))
      case _ => ScanScalar(s, i)
  }

  // What follows a value in an array or an object: the closing bracket, a comma and
  // the next value's position, or neither.
  datatype Separator = Close(end: nat) | More(next: nat) | Neither

  function SeparatorAt(s: string, i: nat, close: char): (r: Separator)
    requires i <= |s|
    ensures r.Close? ==> i < r.end <= |s|
    ensures r.More? ==> i < r.next <= |s|
  {
    var j := SkipSpace(s, i);
    if j >= |s| then Neither
    else if s[j] == close then Close(j + 1)
    else if s[j] == ',' then More(SkipSpace(s, j + 1))
    else Neither
  }

  // The items of an array from its first value to the closing bracket.
  function ScanItems(s: string, i: nat): (r: Scan<seq<Value>>)
    requires i <= |s|
    ensures r.Done? ==> i < r.end <= |s| && |r.value| > 0
    decreases |s| - i, 1
  {
    match ScanValue(s, i)
    case Fail => Fail
    case Done(v, e) =>
      match SeparatorAt(s, e, ']')
      case Close(end) => Done([v], end)
      case More(next) => Prepend(v, ScanItems(s, next))
      case Neither => Fail
  }

  // A key and a colon; the scan ends where the value starts.
  function ScanKey(s: string, i: nat): (r: Scan<seq<int>>)
    requires i <= |s|
    ensures r.Done? ==> i < r.end <= |s|
  {
    if i >= |s| || s[i] != '"' then Fail
    else match ScanString(s, i + 1)
      case Fail => Fail
      case Done(key, e) =>
        var k := SkipSpace(s, e);
        if k >= |s| || s[k] != ':' then Fail else Done(key, SkipSpace(s, k + 1))
  }

  // The members of an object from its first key to the closing brace.
  function ScanMembers(s: string, i: nat): (r: Scan<seq<Member>>)
    requires i <= |s|
    ensures r.Done? ==> i < r.end <= |s| && |r.value| > 0
    decreases |s| - i, 1
  {
    match ScanKey(s, i)
    case Fail => Fail
    case Done(key, v) =>
      match ScanValue(s, v)
      case Fail => Fail
      case Done(value, e) =>
        match SeparatorAt(s, e, '}')
        case Close(end) => Done([Member(key, value)], end)
        case More(next) => Prepend(Member(key, value), ScanMembers(s, next))
        case Neither => Fail
  }
}
