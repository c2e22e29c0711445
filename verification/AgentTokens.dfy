/** Stored hashes of agent tokens: unpadded base64url, four fields, and their verification. */
module AgentTokens {
  import opened Prelude

  const ITERATIONS: nat := 200_000
  const ITERATIONS_TEXT: string := "200000"
  const ALGORITHM: string := "pbkdf2_sha256"

  type Byte = n: nat | n < 256
  type Bytes = seq<Byte>
  type Sextet = n: nat | n < 64

  // ---------- base64url, section 5 of RFC 4648 ----------

  function Symbol(n: Sextet): (c: char)
    ensures c != '$' && c != '='
  {
    if n < 26 then 'A' + n as char
    else if n < 52 then 'a' + (n - 26) as char
    else if n < 62 then '0' + (n - 52) as char
    else if n == 62 then '-' else '_'
  }

  // The decoder also knows the two symbols of the plain alphabet.
  function SymbolValue(c: char): Option<Sextet> {
    if 'A' <= c <= 'Z' then Some((c - 'A') as int)
    else if 'a' <= c <= 'z' then Some((c - 'a') as int + 26)
    else if '0' <= c <= '9' then Some((c - '0') as int + 52)
    else if c == '-' || c == '+' then Some(62)
    else if c == '_' || c == '/' then Some(63)
    else None
  }

  // Table 2 of RFC 4648.
  const CAPITALS: string := "ABCDEFGHIJKLMNOPQRSTUVWXYZ"
  const SMALL: string := "abcdefghijklmnopqrstuvwxyz"
  const OTHERS: string := "0123456789-_"
  const ALPHABET: string := CAPITALS + (SMALL + OTHERS)

  lemma CapitalAt(k: nat)
    requires k < 26
    ensures |CAPITALS| == 26 && CAPITALS[k] == 'A' + k as char
  {
  }

  lemma SmallAt(k: nat)
    requires k < 26
    ensures |SMALL| == 26 && SMALL[k] == 'a' + k as char
  {
  }

  lemma OtherAt(k: nat)
    requires k < 12
    ensures |OTHERS| == 12 && OTHERS[k] == if k < 10 then '0' + k as char else if k == 10 then '-' else '_'
  {
  }

  lemma SymbolTable(n: Sextet)
    ensures |ALPHABET| == 64 && Symbol(n) == ALPHABET[n]
  {
    CapitalAt(if n < 26 then n else 0);
    SmallAt(if 26 <= n < 52 then n - 26 else 0);
    OtherAt(if 52 <= n then n - 52 else 0);
  }

  lemma SymbolRoundTrip(n: Sextet)
    ensures SymbolValue(Symbol(n)) == Some(n)
  {
  }

  function EncodePadded(value: Bytes): string {
    if value == [] then ""
    else if |value| == 1 then
      [Symbol(value[0] / 4), Symbol(value[0] % 4 * 16), '=', '=']
    else if |value| == 2 then
      [Symbol(value[0] / 4), Symbol(value[0] % 4 * 16 + value[1] / 16), Symbol(value[1] % 16 * 4), '=']
    else
      [Symbol(value[0] / 4), Symbol(value[0] % 4 * 16 + value[1] / 16),
       Symbol(value[1] % 16 * 4 + value[2] / 64), Symbol(value[2] % 64)]
      + EncodePadded(value[3..])
  }

  function StripPadding(s: string): string {
    if s != "" && s[|s| - 1] == '=' then StripPadding(s[..|s| - 1]) else s
  }

  function Encode(value: Bytes): string {
    StripPadding(EncodePadded(value))
  }

  // The lenient decoder: `quad` counts the symbols of the current group, `left` keeps the
  // bits of the last one, `pads` the padding seen since. Other characters are skipped.
  function DecodeFrom(s: string, quad: nat, left: nat, pads: nat): Option<Bytes>
    requires quad < 4 && left < 64
    decreases |s|
  {
    if s == "" then if quad == 0 then Some([]) else None
    else if s[0] == '=' then
      if quad >= 2 && quad + pads + 1 >= 4 then Some([])
      else DecodeFrom(s[1..], quad, left, if quad >= 2 then pads + 1 else pads)
    else if SymbolValue(s[0]).None? then DecodeFrom(s[1..], quad, left, pads)
    else
      var n := SymbolValue(s[0]).value;
      if quad == 0 then DecodeFrom(s[1..], 1, n, 0)
      else if quad == 1 then Before((left * 4 + n / 16) % 256, DecodeFrom(s[1..], 2, n % 16, 0))
      else if quad == 2 then Before((left * 16 + n / 4) % 256, DecodeFrom(s[1..], 3, n % 4, 0))
      else Before((left * 64 + n) % 256, DecodeFrom(s[1..], 0, 0, 0))
  }

  function Before(b: Byte, rest: Option<Bytes>): Option<Bytes> {
    if rest.Some? then Some([b] + rest.value) else None
  }

  function Padding(length: nat): string {
    match length % 4
    case 0 => ""
    case 1 => "==="
    case 2 => "=="
    case _ => "="
  }

  predicate Ascii(s: string) {
    forall c :: c in s ==> c < 128 as char
  }

  // None stands for an exception.
  function Decode(s: string): Option<Bytes> {
    if Ascii(s) then DecodeFrom(s + Padding(|s|), 0, 0, 0) else None
  }

  // The encoding without its padding, as a function of its own.
  function Unpadded(value: Bytes): string {
    if value == [] then ""
    else if |value| == 1 then [Symbol(value[0] / 4), Symbol(value[0] % 4 * 16)]
    else if |value| == 2 then [Symbol(value[0] / 4), Symbol(value[0] % 4 * 16 + value[1] / 16), Symbol(value[1] % 16 * 4)]
    else
      [Symbol(value[0] / 4), Symbol(value[0] % 4 * 16 + value[1] / 16),
       Symbol(value[1] % 16 * 4 + value[2] / 64), Symbol(value[2] % 64)]
      + Unpadded(value[3..])
  }

  function ByteAt(value: Bytes, i: nat): Byte {
    if i < |value| then value[i] else 0
  }

  // Three bytes as one number, the first the highest; missing ones are zero.
  function Group(value: Bytes, k: nat): nat {
    ByteAt(value, 3 * k) * 0x10000 + ByteAt(value, 3 * k + 1) * 0x100 + ByteAt(value, 3 * k + 2)
  }

  // Its digits to the base 64, the highest first.
  function Sextets(n: nat): (r: seq<Sextet>)
    ensures |r| == 4
  {
    [n / 0x40000 % 0x40, n / 0x1000 % 0x40, n / 0x40 % 0x40, n % 0x40]
  }

  // Character 4k + j of an encoding is the symbol of digit j of group k.
  lemma {:induction false} EncodingIsBase64(value: Bytes, k: nat, j: nat)
    requires j < 4 && 4 * k + j < |Unpadded(value)|
    ensures |ALPHABET| == 64 && Unpadded(value)[4 * k + j] == ALPHABET[Sextets(Group(value, k))[j]]
    decreases |value|
  {
    hide Symbol, Unpadded, Group, Sextets;
    SymbolTable(Sextets(Group(value, k))[j]);
    if |value| >= 3 && k > 0 {
      SameGroup(value, k - 1);
      LaterChar(value, 4 * (k - 1) + j);
      EncodingIsBase64(value[3..], k - 1, j);
    } else {
      OneGroup(value, k);
      FirstGroup(value, j);
    }
  }

  lemma OneGroup(value: Bytes, k: nat)
    requires 4 * k < |Unpadded(value)| && (|value| < 3 || k == 0)
    ensures k == 0
    ensures var a, b, c := ByteAt(value, 0), ByteAt(value, 1), ByteAt(value, 2);
            Sextets(Group(value, 0)) == [a / 4, a % 4 * 16 + b / 16, b % 16 * 4 + c / 64, c % 64]
  {
    UnpaddedLength(value);
    hide Unpadded;
    DigitsOf(ByteAt(value, 0), ByteAt(value, 1), ByteAt(value, 2));
  }

  lemma SameGroup(value: Bytes, k: nat)
    requires |value| >= 3
    ensures Group(value, k + 1) == Group(value[3..], k)
  {
  }

  lemma LaterChar(value: Bytes, i: nat)
    requires |value| >= 3 && 4 + i < |Unpadded(value)|
    ensures i < |Unpadded(value[3..])| && Unpadded(value)[4 + i] == Unpadded(value[3..])[i]
  {
    hide Symbol;
  }

  lemma FirstGroup(value: Bytes, j: nat)
    requires j < 4 && j < |Unpadded(value)|
    ensures var a, b, c := ByteAt(value, 0), ByteAt(value, 1), ByteAt(value, 2);
            Unpadded(value)[j] == Symbol([a / 4, a % 4 * 16 + b / 16, b % 16 * 4 + c / 64, c % 64][j])
  {
    hide Symbol;
  }

  lemma DigitsOf(a: Byte, b: Byte, c: Byte)
    ensures var n := a * 0x10000 + b * 0x100 + c;
            && n / 0x40000 % 0x40 == a / 4 && n / 0x1000 % 0x40 == a % 4 * 16 + b / 16
            && n / 0x40 % 0x40 == b % 16 * 4 + c / 64 && n % 0x40 == c % 64
  {
    FirstDigit(a, b, c);
    SecondDigit(a, b, c);
    LastDigits(a, b, c);
  }

  lemma By64(n: nat, q: nat, r: nat)
    requires n == 0x40 * q + r && r < 0x40
    ensures n / 0x40 == q && n % 0x40 == r
  {
  }

  lemma FirstDigit(a: Byte, b: Byte, c: Byte)
    ensures (a * 0x10000 + b * 0x100 + c) / 0x40000 % 0x40 == a / 4
  {
    var q, m := a / 4, a % 4;
    assert a * 0x10000 + b * 0x100 + c == 0x40000 * q + (m * 0x10000 + b * 0x100 + c);
  }

  lemma By4096(n: nat, q: nat, r: nat)
    requires n == 0x1000 * q + r && r < 0x1000
    ensures n / 0x1000 == q
  {
  }

  lemma Halves(b: Byte)
    ensures b == b / 16 * 16 + b % 16 && 0 <= b / 16 < 16 && 0 <= b % 16 < 16
    ensures b == b / 4 * 4 + b % 4 && 0 <= b / 4 < 64 && 0 <= b % 4 < 4
    ensures b == b / 64 * 64 + b % 64 && 0 <= b / 64 < 4 && 0 <= b % 64 < 64
  {
  }

  lemma SecondDigit(a: Byte, b: Byte, c: Byte)
    ensures (a * 0x10000 + b * 0x100 + c) / 0x1000 % 0x40 == a % 4 * 16 + b / 16
  {
    Halves(a);
    Halves(b);
    var q, m, h, l := a / 4, a % 4, b / 16, b % 16;
    By4096(a * 0x10000 + b * 0x100 + c, 0x40 * q + (m * 16 + h), l * 0x100 + c);
    By64(0x40 * q + (m * 16 + h), q, m * 16 + h);
  }

  lemma LastDigits(a: Byte, b: Byte, c: Byte)
    ensures var n := a * 0x10000 + b * 0x100 + c;
            n / 0x40 % 0x40 == b % 16 * 4 + c / 64 && n % 0x40 == c % 64
  {
    Halves(b);
    Halves(c);
    var h, l, u, v := b / 16, b % 16, c / 64, c % 64;
    var q := a * 16 + h;
    By64(a * 0x10000 + b * 0x100 + c, 0x40 * q + (l * 4 + u), v);
    By64(0x40 * q + (l * 4 + u), q, l * 4 + u);
  }

  predicate InAlphabet(c: char) {
    c != '$' && c != '=' && c < 128 as char && SymbolValue(c).Some?
  }

  lemma SymbolInAlphabet(n: Sextet)
    ensures InAlphabet(Symbol(n))
  {
  }

  lemma {:induction false} UnpaddedShape(value: Bytes)
    ensures forall c :: c in Unpadded(value) ==> InAlphabet(c)
  {
    hide Symbol, InAlphabet;
    SymbolsInAlphabet(value);
    if |value| >= 3 {
      UnpaddedShape(value[3..]);
    }
  }

  lemma {:induction false} UnpaddedLength(value: Bytes)
    ensures |Unpadded(value)| == (4 * |value| + 2) / 3
    decreases |value|
  {
    hide Symbol;
    if |value| >= 3 {
      UnpaddedLength(value[3..]);
    }
  }

  lemma {:induction false} PaddingCompletes(value: Bytes)
    ensures EncodePadded(value) == Unpadded(value) + Padding(|Unpadded(value)|)
    decreases |value|
  {
    hide Symbol;
    if |value| >= 3 {
      PaddingCompletes(value[3..]);
      SamePadding(value);
      var rest, group := Unpadded(value[3..]), Unpadded(value)[..4];
      assert Unpadded(value) == group + rest && EncodePadded(value) == group + EncodePadded(value[3..]);
      hide Unpadded, EncodePadded, Padding;
      assert group + (rest + Padding(|rest|)) == (group + rest) + Padding(|rest|);
    }
  }

  lemma {:induction false} SymbolsInAlphabet(value: Bytes)
    ensures |value| >= 1 ==> InAlphabet(Symbol(value[0] / 4)) && InAlphabet(Symbol(value[0] % 4 * 16))
    ensures |value| >= 2 ==> InAlphabet(Symbol(value[0] % 4 * 16 + value[1] / 16)) && InAlphabet(Symbol(value[1] % 16 * 4))
    ensures |value| >= 3 ==> InAlphabet(Symbol(value[1] % 16 * 4 + value[2] / 64)) && InAlphabet(Symbol(value[2] % 64))
  {
    if |value| >= 1 {
      SymbolInAlphabet(value[0] / 4);
      SymbolInAlphabet(value[0] % 4 * 16);
    }
    if |value| >= 2 {
      SymbolInAlphabet(value[0] % 4 * 16 + value[1] / 16);
      SymbolInAlphabet(value[1] % 16 * 4);
    }
    if |value| >= 3 {
      SymbolInAlphabet(value[1] % 16 * 4 + value[2] / 64);
      SymbolInAlphabet(value[2] % 64);
    }
  }

  lemma {:induction false} StripRemovesPadding(s: string, length: nat)
    requires s == "" || s[|s| - 1] != '='
    ensures StripPadding(s + Padding(length)) == s
  {
    var p := Padding(length);
    StripMany(s, |p|, p);
  }

  lemma {:induction false} StripMany(s: string, n: nat, p: string)
    requires (s == "" || s[|s| - 1] != '=') && |p| == n && forall i :: 0 <= i < n ==> p[i] == '='
    ensures StripPadding(s + p) == s
  {
    if n == 0 {
      assert s + p == s;
    } else {
      assert (s + p)[..|s + p| - 1] == s + p[..n - 1];
      StripMany(s, n - 1, p[..n - 1]);
    }
  }

  // Stripping leaves the unpadded form: only symbols of the alphabet, so no `$`.
  lemma {:induction false} EncodeIsUnpadded(value: Bytes)
    ensures Encode(value) == Unpadded(value) && |Encode(value)| == (4 * |value| + 2) / 3
    ensures forall c :: c in Encode(value) ==> InAlphabet(c)
  {
    UnpaddedShape(value);
    UnpaddedLength(value);
    PaddingCompletes(value);
    var u := Unpadded(value);
    hide Unpadded, EncodePadded, StripPadding, Padding;
    if u != "" {
      assert u[|u| - 1] in u;
    }
    StripRemovesPadding(u, |u|);
  }

  lemma {:induction false} DecodeSymbol(n: Sextet, rest: string, quad: nat, left: nat, pads: nat)
    requires quad < 4 && left < 64
    ensures DecodeFrom([Symbol(n)] + rest, quad, left, pads)
            == match quad
               case 0 => DecodeFrom(rest, 1, n, 0)
               case 1 => Before((left * 4 + n / 16) % 256, DecodeFrom(rest, 2, n % 16, 0))
               case 2 => Before((left * 16 + n / 4) % 256, DecodeFrom(rest, 3, n % 4, 0))
               case _ => Before((left * 64 + n) % 256, DecodeFrom(rest, 0, 0, 0))
  {
    SymbolRoundTrip(n);
    hide Symbol, SymbolValue;
    assert ([Symbol(n)] + rest)[1..] == rest;
  }

  // Three bytes cut into four symbols and put together again.
  lemma GroupBits(a: Byte, b: Byte, c: Byte)
    ensures (a / 4 * 4 + (a % 4 * 16 + b / 16) / 16) % 256 == a
    ensures ((a % 4 * 16 + b / 16) % 16 * 16 + (b % 16 * 4 + c / 64) / 4) % 256 == b
    ensures ((b % 16 * 4 + c / 64) % 4 * 64 + c % 64) % 256 == c
  {
  }

  lemma {:induction false} DecodeGroup(a: Byte, b: Byte, c: Byte, rest: string)
    ensures DecodeFrom([Symbol(a / 4), Symbol(a % 4 * 16 + b / 16), Symbol(b % 16 * 4 + c / 64), Symbol(c % 64)] + rest, 0, 0, 0)
            == if DecodeFrom(rest, 0, 0, 0).Some? then Some([a, b, c] + DecodeFrom(rest, 0, 0, 0).value) else None
  {
    hide Symbol, DecodeFrom;
    var n0, n1, n2, n3 := a / 4, a % 4 * 16 + b / 16, b % 16 * 4 + c / 64, c % 64;
    var s3 := [Symbol(n3)] + rest;
    var s2 := [Symbol(n2)] + s3;
    var s1 := [Symbol(n1)] + s2;
    DecodeSymbol(n0, s1, 0, 0, 0);
    DecodeSymbol(n1, s2, 1, n0, 0);
    DecodeSymbol(n2, s3, 2, n1 % 16, 0);
    DecodeSymbol(n3, rest, 3, n2 % 4, 0);
    GroupBits(a, b, c);
    assert [Symbol(n0), Symbol(n1), Symbol(n2), Symbol(n3)] + rest == [Symbol(n0)] + s1;
    if DecodeFrom(rest, 0, 0, 0).Some? {
      var d := DecodeFrom(rest, 0, 0, 0).value;
      assert [a] + ([b] + ([c] + d)) == [a, b, c] + d;
    }
  }

  lemma DecodePadding()
    ensures forall left :: 0 <= left < 64 ==> DecodeFrom("==", 2, left, 0) == Some([]) && DecodeFrom("=", 3, left, 0) == Some([])
  {
    forall left | 0 <= left < 64
      ensures DecodeFrom("==", 2, left, 0) == Some([])
    {
      assert "=="[1..] == "=";
      assert DecodeFrom("=", 2, left, 1) == Some([]);
    }
  }

  lemma {:induction false} DecodeTail(value: Bytes)
    requires |value| == 1 || |value| == 2
    ensures DecodeFrom(Unpadded(value) + Padding(|Unpadded(value)|), 0, 0, 0) == Some(value)
  {
    hide Symbol, DecodeFrom;
    DecodePadding();
    var s := Unpadded(value) + Padding(|Unpadded(value)|);
    var n0 := value[0] / 4;
    if |value| == 1 {
      var n1 := value[0] % 4 * 16;
      assert s == [Symbol(n0)] + ([Symbol(n1)] + "==");
      DecodeSymbol(n0, [Symbol(n1)] + "==", 0, 0, 0);
      DecodeSymbol(n1, "==", 1, n0, 0);
      GroupBits(value[0], 0, 0);
      assert n1 == value[0] % 4 * 16 + 0 / 16 && [value[0]] + [] == value;
    } else {
      var n1, n2 := value[0] % 4 * 16 + value[1] / 16, value[1] % 16 * 4;
      assert s == [Symbol(n0)] + ([Symbol(n1)] + ([Symbol(n2)] + "="));
      DecodeSymbol(n0, [Symbol(n1)] + ([Symbol(n2)] + "="), 0, 0, 0);
      DecodeSymbol(n1, [Symbol(n2)] + "=", 1, n0, 0);
      DecodeSymbol(n2, "=", 2, n1 % 16, 0);
      GroupBits(value[0], value[1], 0);
      assert n2 == value[1] % 16 * 4 + 0 / 64 && [value[0]] + ([value[1]] + []) == value;
    }
  }

  lemma {:induction false} UnpaddedRoundTrip(value: Bytes)
    ensures DecodeFrom(Unpadded(value) + Padding(|Unpadded(value)|), 0, 0, 0) == Some(value)
  {
    hide Symbol, SymbolValue, Padding;
    if |value| == 1 || |value| == 2 {
      DecodeTail(value);
    } else if |value| >= 3 {
      UnpaddedRoundTrip(value[3..]);
      var rest := Unpadded(value[3..]);
      SamePadding(value);
      DecodeGroup(value[0], value[1], value[2], rest + Padding(|rest|));
      assert Unpadded(value) + Padding(|Unpadded(value)|) == Unpadded(value)[..4] + (rest + Padding(|rest|));
      assert [value[0], value[1], value[2]] + value[3..] == value;
    } else {
      assert Padding(0) == "" by {
        NoPadding();
      }
    }
  }

  lemma NoPadding()
    ensures Padding(0) == ""
  {
  }

  lemma {:induction false} SamePadding(value: Bytes)
    requires |value| >= 3
    ensures |Unpadded(value)| == |Unpadded(value[3..])| + 4
    ensures Padding(|Unpadded(value)|) == Padding(|Unpadded(value[3..])|)
  {
    hide Symbol;
    var group := Unpadded(value)[..4];
    assert Unpadded(value) == group + Unpadded(value[3..]);
    hide Unpadded;
    assert (|Unpadded(value[3..])| + 4) % 4 == |Unpadded(value[3..])| % 4;
  }

  // For every byte string, decoding the unpadded form gives the bytes back.
  lemma {:induction false} RoundTrip(value: Bytes)
    ensures Decode(Encode(value)) == Some(value)
  {
    EncodeIsUnpadded(value);
    UnpaddedRoundTrip(value);
    hide Unpadded, Encode, DecodeFrom, Padding;
  }

  // ---------- stored hashes ----------

  function Split(s: string, separator: char): seq<string> {
    if s == "" then [""]
    else
      var rest := Split(s[1..], separator);
      if s[0] == separator then [""] + rest
      else if rest == [] then [[s[0]]] else [[s[0]] + rest[0]] + rest[1..]
  }

  lemma {:induction false} SplitFirst(part: string, rest: string, separator: char)
    requires separator !in part
    ensures Split(part, separator) == [part]
    ensures Split(part + [separator] + rest, separator) == [part] + Split(rest, separator)
  {
    if part == "" {
      assert part + [separator] + rest == [separator] + rest;
      assert ([separator] + rest)[1..] == rest;
    } else {
      SplitFirst(part[1..], rest, separator);
      assert (part + [separator] + rest)[1..] == part[1..] + [separator] + rest;
      assert [part[0]] + part[1..] == part;
      assert part[0] in part;
    }
  }

  function Digits(s: string): Option<nat> {
    if s == "" then Some(0)
    else
      var init, last := s[..|s| - 1], s[|s| - 1];
      if '0' <= last <= '9' && Digits(init).Some? then Some(Digits(init).value * 10 + (last - '0') as int) else None
  }

  function ParseInt(s: string): Option<nat> {
    if s == "" then None else Digits(s)
  }

  // Key derivation: token, salt, iterations.
  type Pbkdf2 = (string, Bytes, nat) -> Bytes

  function HashToken(derive: Pbkdf2, token: string, salt: Bytes): string {
    ALGORITHM + "$" + ITERATIONS_TEXT + "$" + Encode(salt) + "$" + Encode(derive(token, salt, ITERATIONS))
  }

  // A malformed salt or digest, or no iterations at all, raises instead of answering.
  datatype Verdict = Answer(matches: bool) | Raises

  function VerifyToken(derive: Pbkdf2, token: string, stored: string): Verdict {
    var parts := Split(stored, '$');
    if |parts| != 4 then Answer(false)
    else if parts[0] != ALGORITHM then Answer(false)
    else if ParseInt(parts[1]).None? then Answer(false)
    else if Decode(parts[2]).None? || Decode(parts[3]).None? || ParseInt(parts[1]).value == 0 then Raises
    else Answer(derive(token, Decode(parts[2]).value, ParseInt(parts[1]).value) == Decode(parts[3]).value)
  }

  lemma NoDollar(value: Bytes)
    ensures '$' !in Encode(value)
  {
    EncodeIsUnpadded(value);
  }

  lemma {:induction false} HashHasFourParts(derive: Pbkdf2, token: string, salt: Bytes)
    ensures Split(HashToken(derive, token, salt), '$')
            == [ALGORITHM, ITERATIONS_TEXT, Encode(salt), Encode(derive(token, salt, ITERATIONS))]
  {
    hide Split, Encode, InAlphabet, SymbolValue, Symbol;
    var s, d := Encode(salt), Encode(derive(token, salt, ITERATIONS));
    NoDollar(salt);
    NoDollar(derive(token, salt, ITERATIONS));
    SplitFirst(d, "", '$');
    SplitFirst(s, d, '$');
    SplitFirst(ITERATIONS_TEXT, s + "$" + d, '$');
    SplitFirst(ALGORITHM, ITERATIONS_TEXT + "$" + (s + "$" + d), '$');
    assert HashToken(derive, token, salt) == ALGORITHM + "$" + (ITERATIONS_TEXT + "$" + (s + "$" + d));
  }

  lemma IterationsParse()
    ensures ParseInt(ITERATIONS_TEXT) == Some(ITERATIONS)
  {
    var t := ITERATIONS_TEXT;
    assert t[..5] == "20000" && t[..5][..4] == "2000" && t[..5][..4][..3] == "200";
    assert t[..5][..4][..3][..2] == "20" && t[..5][..4][..3][..2][..1] == "2" && t[..5][..4][..3][..2][..1][..0] == "";
    assert Digits("2") == Some(2);
    assert Digits("20") == Some(20);
    assert Digits("200") == Some(200);
    assert Digits("2000") == Some(2000);
    assert Digits("20000") == Some(20000);
  }

  // A hash verifies a token exactly when both derive the same digest with its salt; so it
  // always verifies its own.
  lemma {:induction false} VerifyMeansSameDigest(derive: Pbkdf2, token: string, other: string, salt: Bytes)
    ensures VerifyToken(derive, other, HashToken(derive, token, salt))
            == Answer(derive(other, salt, ITERATIONS) == derive(token, salt, ITERATIONS))
    ensures VerifyToken(derive, token, HashToken(derive, token, salt)) == Answer(true)
  {
    hide Split, Encode, Decode, ParseInt, HashToken;
    HashHasFourParts(derive, token, salt);
    IterationsParse();
    RoundTrip(salt);
    RoundTrip(derive(token, salt, ITERATIONS));
  }
}
