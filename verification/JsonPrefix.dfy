/**
 How a scan of a whole text t relates to the same scan of a prefix s of it.

 Shrink: a scan of t that ends within s is also what s gives.
 Grow: a scan of s stays what it is in t, unless it is a number that t goes on with.
 Cut: a number of t that s cuts short is read from s as a shorter number.
 */
module JsonPrefix {
  import opened Prelude
  import opened JsonScanner

  lemma {:induction false} SkipSpacePrefix(s: string, t: string, i: nat)
    requires s <= t && i <= |s|
    ensures SkipSpace(s, i) == Min(SkipSpace(t, i), |s|)
    decreases |s| - i
  {
    if i < |s| && JsonSpace(s[i]) {
      SkipSpacePrefix(s, t, i + 1);
    }
  }

  lemma {:induction false} DigitsEndPrefix(s: string, t: string, i: nat)
    requires s <= t && i <= |s|
    ensures DigitsEnd(s, i) == Min(DigitsEnd(t, i), |s|)
    decreases |s| - i
  {
    if i < |s| && Digit(s[i]) {
      DigitsEndPrefix(s, t, i + 1);
    }
  }

  // ---------- numbers ----------

  lemma IntEndPrefix(s: string, t: string, i: nat)
    requires s <= t && i < |s|
    ensures IntStart(s, i) == IntStart(t, i)
    ensures IntStart(s, i) >= |s| ==> IntEnd(s, i) == None
    ensures IntStart(s, i) < |s| ==> (IntEnd(s, i).None? <==> IntEnd(t, i).None?)
    ensures IntEnd(s, i).Some? ==> IntEnd(s, i).value == Min(IntEnd(t, i).value, |s|)
  {
    var j := IntStart(s, i);
    if j < |s| {
      DigitsEndPrefix(s, t, j + 1);
    }
  }

  lemma FractionPrefix(s: string, t: string, i: nat)
    requires s <= t && i <= |s|
    ensures FractionEnd(s, i) == FractionEnd(t, i)
            || (FractionEnd(s, i) <= |s| < FractionEnd(t, i)
                && (FractionEnd(s, i) == |s| || (FractionEnd(s, i) == i && s[i] == '.')))
  {
    if i + 1 < |s| && s[i] == '.' && Digit(s[i + 1]) {
      DigitsEndPrefix(s, t, i + 2);
    }
  }

  lemma ExponentPrefix(s: string, t: string, i: nat)
    requires s <= t && i <= |s|
    ensures ExponentEnd(s, i) == ExponentEnd(t, i)
            || (ExponentEnd(s, i) <= |s| < ExponentEnd(t, i)
                && (ExponentEnd(s, i) == |s| || (ExponentEnd(s, i) == i && (s[i] == 'e' || s[i] == 'E'))))
  {
    if i + 1 < |s| && (s[i] == 'e' || s[i] == 'E') {
      if i + 2 <= |s| {
        DigitsEndPrefix(s, t, i + 1);
      }
      if i + 2 < |s| {
        DigitsEndPrefix(s, t, i + 2);
      }
    }
  }

  // A number of t that ends within s is the same number in s; one that s cuts
  // short ends early in s, at a character that t goes on with.
  lemma NumberPrefix(s: string, t: string, i: nat)
    requires s <= t && i < |s| && IntStart(s, i) < |s|
    ensures IntStart(s, i) == IntStart(t, i)
    ensures NumberEnd(s, i).Some? <==> NumberEnd(t, i).Some?
    ensures NumberEnd(t, i).Some? && NumberEnd(t, i).value <= |s| ==> NumberEnd(s, i) == NumberEnd(t, i)
    ensures NumberEnd(t, i).Some? && NumberEnd(s, i) != NumberEnd(t, i) ==>
              var e := NumberEnd(s, i).value; e <= |s| < NumberEnd(t, i).value && NumberTail(t[e])
  {
    IntEndPrefix(s, t, i);
    if IntEnd(s, i).Some? {
      var j, j' := IntEnd(s, i).value, IntEnd(t, i).value;
      FractionPrefix(s, t, j);
      var k := FractionEnd(s, j);
      ExponentPrefix(s, t, k);
      if j != j' {
        assert j == |s| && Digit(t[j]);
      }
    }
  }

  // ---------- strings ----------

  lemma EscapeShrink(s: string, t: string, i: nat)
    requires s <= t && i < |s|
    requires ScanEscape(t, i).Done? && ScanEscape(t, i).end < |s|
    requires ScanString(t, ScanEscape(t, i).end).Done? && ScanString(t, ScanEscape(t, i).end).end <= |s|
    ensures ScanEscape(s, i) == ScanEscape(t, i)
  {
    // A lone high surrogate before another escape: that escape still has to end within s.
    var next := ScanEscape(t, i).end;
    if next == i + 6 && t[next] == '\\' {
      assert ScanEscape(t, next).Done?;
    }
  }

  lemma EscapeGrow(s: string, t: string, i: nat)
    requires s <= t && i < |s|
    requires ScanEscape(s, i).Done? && ScanString(s, ScanEscape(s, i).end).Done?
    ensures ScanEscape(t, i) == ScanEscape(s, i)
  {
    var next := ScanEscape(s, i).end;
    assert next < |s|;
    if next == i + 6 && s[next] == '\\' {
      assert ScanEscape(s, next).Done?;
    }
  }

  lemma {:induction false} StringShrink(s: string, t: string, i: nat)
    requires s <= t && i <= |s|
    requires ScanString(t, i).Done? && ScanString(t, i).end <= |s|
    ensures ScanString(s, i) == ScanString(t, i)
    decreases |s| - i
  {
    if t[i] == '"' {
    } else if t[i] == '\\' {
      EscapeShrink(s, t, i);
      StringShrink(s, t, ScanEscape(t, i).end);
    } else {
      StringShrink(s, t, i + 1);
    }
  }

  lemma {:induction false} StringGrow(s: string, t: string, i: nat)
    requires s <= t && i <= |s|
    requires ScanString(s, i).Done?
    ensures ScanString(t, i) == ScanString(s, i)
    decreases |s| - i
  {
    if s[i] == '"' {
    } else if s[i] == '\\' {
      EscapeGrow(s, t, i);
      StringGrow(s, t, ScanEscape(s, i).end);
    } else {
      StringGrow(s, t, i + 1);
    }
  }

  // ---------- values ----------

  lemma WordPrefix(s: string, t: string, i: nat, word: string)
    requires s <= t && i <= |s|
    ensures Matches(s, i, word) <==> Matches(t, i, word) && i + |word| <= |s|
  {
    if i + |word| <= |s| {
      assert s[i..i + |word|] == t[i..i + |word|];
    }
  }

  lemma WordsPrefix(s: string, t: string, i: nat)
    requires s <= t && i <= |s|
    ensures Matches(s, i, "null") <==> Matches(t, i, "null") && i + 4 <= |s|
    ensures Matches(s, i, "true") <==> Matches(t, i, "true") && i + 4 <= |s|
    ensures Matches(s, i, "false") <==> Matches(t, i, "false") && i + 5 <= |s|
    ensures Matches(s, i, "NaN") <==> Matches(t, i, "NaN") && i + 3 <= |s|
    ensures Matches(s, i, "Infinity") <==> Matches(t, i, "Infinity") && i + 8 <= |s|
    ensures Matches(s, i, "-Infinity") <==> Matches(t, i, "-Infinity") && i + 9 <= |s|
  {
    WordPrefix(s, t, i, "null");
    WordPrefix(s, t, i, "true");
    WordPrefix(s, t, i, "false");
    WordPrefix(s, t, i, "NaN");
    WordPrefix(s, t, i, "Infinity");
    WordPrefix(s, t, i, "-Infinity");
  }

  lemma NoDigitInInfinity(t: string, i: nat)
    requires i + 1 < |t| && Digit(t[i + 1])
    ensures !Matches(t, i, "-Infinity")
  {
    if i + 9 <= |t| {
      assert t[i..i + 9][1] == t[i + 1];
      assert "-Infinity"[1] == 'I';
    }
  }

  // What follows a value inside an array or an object cannot go on with a number.
  lemma SeparatorPrefix(s: string, t: string, e: nat, close: char)
    requires s <= t && e <= |s| && (close == ']' || close == '}')
    ensures SeparatorAt(s, e, close).Close? ==> SeparatorAt(t, e, close) == SeparatorAt(s, e, close)
    ensures SeparatorAt(t, e, close).Close? && SeparatorAt(t, e, close).end <= |s| ==>
              SeparatorAt(s, e, close) == SeparatorAt(t, e, close)
    ensures SeparatorAt(s, e, close).More? && SeparatorAt(s, e, close).next < |s| ==>
              SeparatorAt(t, e, close) == SeparatorAt(s, e, close)
    ensures SeparatorAt(t, e, close).More? && SeparatorAt(t, e, close).next < |s| ==>
              SeparatorAt(s, e, close) == SeparatorAt(t, e, close)
    ensures !SeparatorAt(s, e, close).Neither? ==> e < |s| && !NumberTail(s[e])
  {
    SkipSpacePrefix(s, t, e);
    var j := SkipSpace(t, e);
    if j + 1 <= |s| {
      SkipSpacePrefix(s, t, j + 1);
    }
    assert SkipSpace(s, e) != e ==> JsonSpace(s[e]);
  }

  lemma KeyShrink(s: string, t: string, i: nat)
    requires s <= t && i <= |s|
    requires ScanKey(t, i).Done? && ScanKey(t, i).end <= |s|
    ensures ScanKey(s, i) == ScanKey(t, i)
  {
    var e := ScanString(t, i + 1).end;
    var k := SkipSpace(t, e);
    StringShrink(s, t, i + 1);
    SkipSpacePrefix(s, t, e);
    SkipSpacePrefix(s, t, k + 1);
  }

  lemma KeyGrow(s: string, t: string, i: nat)
    requires s <= t && i <= |s|
    requires ScanKey(s, i).Done? && ScanKey(s, i).end < |s|
    ensures ScanKey(t, i) == ScanKey(s, i)
  {
    var e := ScanString(s, i + 1).end;
    var k := SkipSpace(s, e);
    StringGrow(s, t, i + 1);
    SkipSpacePrefix(s, t, e);
    SkipSpacePrefix(s, t, k + 1);
  }

  lemma {:induction false} ValueShrink(s: string, t: string, i: nat)
    requires s <= t && i <= |s|
    requires ScanValue(t, i).Done? && ScanValue(t, i).end <= |s|
    ensures ScanValue(s, i) == ScanValue(t, i)
    decreases |s| - i, 0
  {
    if t[i] == '"' {
      StringShrink(s, t, i + 1);
    } else if t[i] == '{' {
      var j := SkipSpace(t, i + 1);
      SkipSpacePrefix(s, t, i + 1);
      if t[j] != '}' {
        MembersShrink(s, t, j);
      }
    } else if t[i] == '[' {
      var j := SkipSpace(t, i + 1);
      SkipSpacePrefix(s, t, i + 1);
      if t[j] != ']' {
        ItemsShrink(s, t, j);
      }
    } else {
      ScalarShrink(s, t, i);
    }
  }

  lemma ScalarShrink(s: string, t: string, i: nat)
    requires s <= t && i < |s|
    requires ScanScalar(t, i).Done? && ScanScalar(t, i).end <= |s|
    ensures ScanScalar(s, i) == ScanScalar(t, i)
  {
    WordsPrefix(s, t, i);
    if ScanScalar(t, i).value.Number? {
      NumberPrefix(s, t, i);
      assert s[i..ScanScalar(t, i).end] == t[i..ScanScalar(t, i).end];
    }
  }

  lemma {:induction false} ItemsShrink(s: string, t: string, i: nat)
    requires s <= t && i <= |s|
    requires ScanItems(t, i).Done? && ScanItems(t, i).end <= |s|
    ensures ScanItems(s, i) == ScanItems(t, i)
    decreases |s| - i, 1
  {
    var e := ScanValue(t, i).end;
    var sep := SeparatorAt(t, e, ']');
    ValueShrink(s, t, i);
    SeparatorPrefix(s, t, e, ']');
    if sep.More? {
      ItemsShrink(s, t, sep.next);
    }
  }

  lemma {:induction false} MembersShrink(s: string, t: string, i: nat)
    requires s <= t && i <= |s|
    requires ScanMembers(t, i).Done? && ScanMembers(t, i).end <= |s|
    ensures ScanMembers(s, i) == ScanMembers(t, i)
    decreases |s| - i, 1
  {
    var v := ScanKey(t, i).end;
    var e := ScanValue(t, v).end;
    var sep := SeparatorAt(t, e, '}');
    KeyShrink(s, t, i);
    ValueShrink(s, t, v);
    SeparatorPrefix(s, t, e, '}');
    if sep.More? {
      MembersShrink(s, t, sep.next);
    }
  }

  // A number is only kept by a longer text when the character after it cannot go on with it.
  ghost predicate Settled(s: string, r: Scan<Value>)
  {
    r.Done? && (r.value.Number? ==> r.end < |s| && !NumberTail(s[r.end]))
  }

  lemma {:induction false} ValueGrow(s: string, t: string, i: nat)
    requires s <= t && i <= |s|
    requires Settled(s, ScanValue(s, i))
    ensures ScanValue(t, i) == ScanValue(s, i)
    decreases |s| - i, 0
  {
    if s[i] == '"' {
      StringGrow(s, t, i + 1);
    } else if s[i] == '{' {
      SkipSpacePrefix(s, t, i + 1);
      var j := SkipSpace(s, i + 1);
      if s[j] != '}' {
        MembersGrow(s, t, j);
      }
    } else if s[i] == '[' {
      SkipSpacePrefix(s, t, i + 1);
      var j := SkipSpace(s, i + 1);
      if s[j] != ']' {
        ItemsGrow(s, t, j);
      }
    } else {
      ScalarGrow(s, t, i);
    }
  }

  lemma ScalarGrow(s: string, t: string, i: nat)
    requires s <= t && i < |s|
    requires Settled(s, ScanScalar(s, i))
    ensures ScanScalar(t, i) == ScanScalar(s, i)
  {
    WordsPrefix(s, t, i);
    if ScanScalar(s, i).value.Number? {
      NumberPrefix(s, t, i);
      assert s[i..ScanScalar(s, i).end] == t[i..ScanScalar(s, i).end];
      if s[i] == '-' {
        NoDigitInInfinity(t, i);
      }
    }
  }

  lemma {:induction false} ItemsGrow(s: string, t: string, i: nat)
    requires s <= t && i <= |s|
    requires ScanItems(s, i).Done?
    ensures ScanItems(t, i) == ScanItems(s, i)
    decreases |s| - i, 1
  {
    var e := ScanValue(s, i).end;
    var sep := SeparatorAt(s, e, ']');
    SeparatorPrefix(s, t, e, ']');
    ValueGrow(s, t, i);
    if sep.More? {
      ItemsGrow(s, t, sep.next);
    }
  }

  lemma {:induction false} MembersGrow(s: string, t: string, i: nat)
    requires s <= t && i <= |s|
    requires ScanMembers(s, i).Done?
    ensures ScanMembers(t, i) == ScanMembers(s, i)
    decreases |s| - i, 1
  {
    var v := ScanKey(s, i).end;
    var e := ScanValue(s, v).end;
    var sep := SeparatorAt(s, e, '}');
    KeyGrow(s, t, i);
    SeparatorPrefix(s, t, e, '}');
    ValueGrow(s, t, v);
    if sep.More? {
      MembersGrow(s, t, sep.next);
    }
  }
}
