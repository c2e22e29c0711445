/** The streaming reader of skills_index.json over a file that is read chunk by chunk. */
module StreamingReader {
  import opened Prelude
  import opened JsonScanner
  import opened SkillsIndex
  import opened ChunkEnds
  import opened IndexSteps
  import opened Mishaps

  // A buffer that is the start of the text, with the rest still in the file.
  ghost predicate Consistent(t: string, cuts: set<nat>, buffer: string, chunks: seq<string>) {
    && buffer <= t
    && t[|buffer|..] == Flatten(chunks)
    && (forall i :: 0 <= i < |chunks| ==> chunks[i] != "")
    && (|buffer| > 0 ==> |buffer| in cuts)
    && (forall c :: c in cuts && c > |buffer| ==> c in Boundaries(|buffer|, chunks))
    && Boundaries(|buffer|, chunks) <= cuts
  }

  lemma ConsistentEnd(t: string, cuts: set<nat>, buffer: string, chunks: seq<string>)
    requires Consistent(t, cuts, buffer, chunks)
    ensures |buffer| > 0 ==> |buffer| in cuts
  {
  }

  lemma Refill(t: string, cuts: set<nat>, buffer: string, chunks: seq<string>)
    requires Consistent(t, cuts, buffer, chunks) && chunks != []
    ensures Consistent(t, cuts, buffer + chunks[0], chunks[1..])
    ensures |buffer + chunks[0]| == EndFrom(t, cuts, |buffer| + 1)
  {
    var chunk, rest := chunks[0], chunks[1..];
    BoundariesFrom(|buffer|, chunks);
    BoundariesFrom(|buffer| + |chunk|, rest);
    assert t == buffer + (chunk + Flatten(rest));
  }

  // Two skips, one after the other, are a look.
  lemma LooksTwice(t: string, cuts: set<nat>, i: nat, b: nat, j: nat, k: nat)
    requires i <= b <= |t| && j <= |t|
    requires var p, next := Skip(t, i), EndFrom(t, cuts, b + 1);
             if p < b then j == p && k == b
             else if p < next then j == p && k == next
             else j == next && k == EndFrom(t, cuts, next + 1)
    ensures j == LookPos(t, cuts, i, b) && k == LookEnd(t, cuts, i, b)
    ensures j < |t| ==> (IsSpace(t[j]) <==> Astray(t, cuts, i, b))
  {
    hide EndFrom;
    LookStays(t, cuts, i, b);
  }

  lemma ColonInSight(t: string, cuts: set<nat>, i: nat, b: nat)
    requires i <= b <= |t| && LookPos(t, cuts, i, b) == Skip(t, i) < LookEnd(t, cuts, i, b)
    ensures !ColonMissed(LookEnd(t, cuts, i, b), Skip(t, i))
    ensures ColonEnd(t, cuts, LookEnd(t, cuts, i, b), Skip(t, i)) == LookEnd(t, cuts, i, b)
  {
    hide EndFrom, Skip, LookPos, LookEnd;
  }

  lemma NotAtEnd(t: string, cuts: set<nat>, p: nat, v: Value, pos: nat)
    requires p <= |t| && Decoded(t, cuts, p, v, pos)
    ensures p < |t|
  {
  }

  // ---------- the first character of the file ----------

  lemma NothingThere(t: string, cuts: set<nat>, b: nat)
    requires b == EndFrom(t, cuts, 1)
    requires var p := Skip(t, 0); p < |t| && (t[p] == '[' || t[p] == '{') ==> Astray(t, cuts, 0, b)
    ensures ReadIndex(t).Reject? || ReadMishap(t, cuts) != Fine
  {
    hide EndFrom, ReadArray, ReadMembers, Astray;
  }

  lemma ArrayThere(t: string, cuts: set<nat>, b: nat)
    requires b == EndFrom(t, cuts, 1) && Skip(t, 0) < |t| && t[Skip(t, 0)] == '[' && !Astray(t, cuts, 0, b)
    ensures var i := Skip(t, 0) + 1;
            && ReadIndex(t) == (match ReadArray(t, i) case Fail => Reject case Done(es, _) => Accept(es))
            && ReadMishap(t, cuts) == ArrayMishap(t, cuts, i, LookEnd(t, cuts, 0, b))
  {
    hide EndFrom, ReadArray, ReadMembers, Astray, ArrayMishap, LookEnd, Skip;
  }

  lemma ObjectThere(t: string, cuts: set<nat>, b: nat)
    requires b == EndFrom(t, cuts, 1) && Skip(t, 0) < |t| && t[Skip(t, 0)] == '{' && !Astray(t, cuts, 0, b)
    ensures var i := Skip(t, 0) + 1;
            && ReadIndex(t) == ReadMembers(t, i)
            && ReadMishap(t, cuts) == MembersMishap(t, cuts, i, LookEnd(t, cuts, 0, b))
  {
    hide EndFrom, ReadArray, ReadMembers, Astray, MembersMishap, LookEnd, Skip;
  }

  class Reader {
    var chunks: seq<string>  // what the file still holds
    var buffer: string
    var position: nat
    var eof: bool
    ghost const text: string
    ghost const cuts: set<nat>

    ghost predicate Valid()
      reads this
    {
      && buffer <= text
      && Consistent(text, cuts, buffer, chunks)
      && (eof ==> buffer == text && chunks == [])
      && position <= |buffer|
    }

    // Some of the file has been read, or there was nothing in it.
    ghost predicate Open()
      reads this
    {
      Valid() && (buffer != "" || eof)
    }

    constructor (file: seq<string>)
      requires forall i :: 0 <= i < |file| ==> file[i] != ""
      ensures Valid() && position == 0 && buffer == "" && !eof
      ensures text == Flatten(file) && cuts == Boundaries(0, file)
    {
      chunks, buffer, position, eof := file, "", 0, false;
      text, cuts := Flatten(file), Boundaries(0, file);
    }

    method FillBuffer()
      requires Valid()
      modifies this
      ensures Valid() && position == old(position)
      ensures old(eof) ==> eof && chunks == old(chunks) && buffer == old(buffer)
      ensures !old(eof) ==>
                if old(chunks) == [] then eof && chunks == [] && buffer == old(buffer)
                else !eof && buffer == old(buffer) + old(chunks)[0] && chunks == old(chunks)[1..] && |old(buffer)| < |buffer|
      ensures old(buffer) <= buffer && |buffer| == EndFrom(text, cuts, |old(buffer)| + 1)
    {
      if eof {
        return;
      }
      if chunks == [] {
        eof := true;
        return;
      }
      Refill(text, cuts, buffer, chunks);
      buffer := buffer + chunks[0];
      chunks := chunks[1..];
    }

    // At the end of the buffer one more chunk is read, and its white space is left alone.
    // The outer loop of the original cannot come round again: a read brings characters or
    // the end of the file, and returns either way.
    method SkipWhitespace()
      requires Open()
      modifies this
      ensures Open() && old(position) <= position
      ensures Skip(text, position) == Skip(text, old(position))
      ensures position == |buffer| ==> eof
      ensures if Skip(text, old(position)) < |old(buffer)|
              then position == Skip(text, old(position)) && buffer == old(buffer)
              else position == |old(buffer)| && |buffer| == EndFrom(text, cuts, |old(buffer)| + 1)
      ensures eof ==> position == Skip(text, position)
      ensures |chunks| <= |old(chunks)| && (old(eof) ==> eof)
    {
      hide Consistent, EndFrom;
      ghost var start := position;
      while position < |buffer| && IsSpace(buffer[position])
        modifies this`position
        invariant start <= position <= |buffer|
        invariant forall k :: start <= k < position ==> IsSpace(buffer[k])
      {
        position := position + 1;
      }
      SkipTo(text, start, position);
      if position < |buffer| {
        return;
      }
      FillBuffer();
    }

    method Peek() returns (c: Option<char>)
      requires Open()
      modifies this
      ensures Open() && old(position) <= position
      ensures Skip(text, position) == Skip(text, old(position))
      ensures if Skip(text, old(position)) < |old(buffer)|
              then position == Skip(text, old(position)) && buffer == old(buffer)
              else position == |old(buffer)| && |buffer| == EndFrom(text, cuts, |old(buffer)| + 1)
      ensures c.None? ==> eof && position == |text|
      ensures c.Some? ==> position < |buffer| && c.value == text[position]
    {
      SkipWhitespace();
      if position >= |buffer| {
        return None;
      }
      return Some(buffer[position]);
    }

    // The reader skips white space and then peeks, which skips once more. One skip may stop
    // at the start of a chunk, whatever is there; so may the second, behind a blank chunk.
    method Look() returns (c: Option<char>)
      requires Open()
      modifies this
      ensures Open() && position == LookPos(text, cuts, old(position), |old(buffer)|)
      ensures |buffer| == LookEnd(text, cuts, old(position), |old(buffer)|)
      ensures Skip(text, position) == Skip(text, old(position))
      ensures c.None? ==> position == |text|
      ensures c.Some? ==> position < |buffer| && c.value == text[position]
      ensures c.Some? ==> (IsSpace(c.value) <==> Astray(text, cuts, old(position), |old(buffer)|))
    {
      hide Skip, Consistent, EndFrom;
      ghost var i, b := position, |buffer|;
      SkipWhitespace();
      c := Peek();
      LooksTwice(text, cuts, i, b, position, |buffer|);
    }

    // One attempt of the decoder on the buffer as it is.
    method RawDecode(ghost p: nat, ghost f: nat) returns (r: Option<Value>)
      requires Valid() && Skip(text, position) == p
      modifies this`position
      ensures Valid()
      ensures r.None? ==> position == old(position) && ScanValue(buffer, position).Fail?
      ensures r.Some? ==> p < position && Decoded(text, cuts, p, r.value, position)
      ensures r.Some? && Trying(text, cuts, p, f, old(position), |buffer|) ==> ReadFrom(text, cuts, p, f, position, |buffer|)
    {
      var attempt := ScanValue(buffer, position);
      if attempt.Fail? {
        return None;
      }
      AttemptAt(text, cuts, buffer, position, p);
      if Trying(text, cuts, p, f, position, |buffer|) {
        assert buffer == text[..|buffer|];
        FirstSuccess(text, cuts, p, f, |buffer|);
      }
      position := attempt.end;
      return Some(attempt.value);
    }

    // What the decoding loop does after a failed attempt.
    method ReadMore(ghost p: nat, ghost f: nat)
      requires Open() && !eof && Skip(text, position) == p && ScanValue(buffer, position).Fail?
      modifies this
      ensures Open() && Skip(text, position) == p
      ensures eof ==> position == p
      ensures |chunks| < |old(chunks)| || (|chunks| == |old(chunks)| && eof)
      ensures p < |text| && Trying(text, cuts, p, f, old(position), |old(buffer)|) && (old(position) == p ==> p < |old(buffer)|) ==>
                Trying(text, cuts, p, f, position, |buffer|) && (position == p ==> p < |buffer|)
    {
      hide Consistent, EndFrom, Trying, Skip, ScanValue;
      assert buffer == text[..|buffer|];
      if p < |text| && Trying(text, cuts, p, f, position, |buffer|) {
        if position < p {
          TryingMore(text, cuts, p, f, position, |buffer|);
        } else if p < |buffer| {
          TryingAgain(text, cuts, p, f, |buffer|);
        }
      }
      FillBuffer();
      SkipWhitespace();
    }

    method DecodeValue() returns (r: Option<Value>)
      requires Open()
      modifies this
      ensures Open()
      ensures r.Some? ==>
                && Skip(text, old(position)) < position
                && Decoded(text, cuts, Skip(text, old(position)), r.value, position)
                && ReadFrom(text, cuts, Skip(text, old(position)), FirstTry(text, cuts, old(position), |old(buffer)|), position, |buffer|)
      ensures r.None? ==> ScanValue(text, Skip(text, old(position))).Fail?
    {
      hide ScanValue, Skip, Consistent, Trying, ReadFrom, EndFrom, FirstTry, Decoded;
      ghost var i, b, p, f := position, |buffer|, Skip(text, position), FirstTry(text, cuts, position, |buffer|);
      ConsistentEnd(text, cuts, buffer, chunks);
      SkipWhitespace();
      if p < |text| {
        TryingFirst(text, cuts, i, b, position, |buffer|);
      }
      while true
        invariant Open() && Skip(text, position) == p
        invariant eof ==> position == p
        invariant p < |text| ==> Trying(text, cuts, p, f, position, |buffer|) && (position == p ==> p < |buffer|)
        decreases |chunks|, !eof
      {
        r := RawDecode(p, f);
        if r.Some? {
          NotAtEnd(text, cuts, p, r.value, position);
          return;
        }
        if eof {
          return;
        }
        ReadMore(p, f);
        if position >= |buffer| && eof {
          return None;
        }
      }
    }

    method ConsumeChar(expected: char) returns (ok: bool)
      requires Open() && !IsSpace(expected)
      modifies this
      ensures Open()
      ensures var p := Skip(text, old(position));
              ok <==> p < |text| && text[p] == expected && !ColonMissed(|old(buffer)|, p)
      ensures ok ==> position == Skip(text, old(position)) + 1
                     && |buffer| == ColonEnd(text, cuts, |old(buffer)|, Skip(text, old(position)))
    {
      hide Consistent, EndFrom;
      SkipWhitespace();
      if position >= |buffer| {
        FillBuffer();
        SkipWhitespace();
      }
      if position >= |buffer| {
        return false;
      }
      var actual := buffer[position];
      if actual != expected {
        return false;
      }
      position := position + 1;
      return true;
    }

    // One entry of an array, which has to be an object; None is the error. The look that came
    // before it started at i with the text read up to b.
    method ReadEntry(ghost p0: nat, ghost b0: nat, ghost entries: seq<Value>, ghost i: nat, ghost b: nat) returns (r: Option<Value>)
      requires Open() && p0 <= |text| && i <= |text|
      requires position == LookPos(text, cuts, i, b) && |buffer| == LookEnd(text, cuts, i, b)
      requires Skip(text, position) == Skip(text, i)
      requires var p := Skip(text, i); p < |text| && (text[p] == ']' || text[p] == ',') ==> Astray(text, cuts, i, b)
      requires ArrayOn(text, cuts, p0, b0, entries, i, b)
      modifies this
      ensures Open()
      ensures r.Some? ==> i < position && ArrayOn(text, cuts, p0, b0, entries + [r.value], position, |buffer|)
      ensures r.None? ==> ReadArray(text, p0).Fail? || ArrayMishap(text, cuts, p0, b0) != Fine
    {
      hide ScanValue, ReadArray, ArrayOn, ArrayMishap, Skip, Decoded, ReadFrom, FirstTry, Consistent, LookPos, LookEnd, Astray;
      assert FirstTry(text, cuts, position, |buffer|) == LookTry(text, cuts, i, b);
      r := DecodeValue();
      if r.None? {
        ArrayOnNothing(text, cuts, p0, b0, entries, i, b);
        return None;
      }
      ArrayOnEntry(text, cuts, p0, b0, entries, i, b, r.value, position, |buffer|);
      if !r.value.Object? {
        return None;
      }
    }

    // The entries of an array whose opening bracket has been read; None is the error.
    method ReadArrayValues() returns (r: Option<seq<Value>>)
      requires Open()
      modifies this
      ensures Open()
      ensures r.Some? ==>
                && ReadArray(text, old(position)) == Done(r.value, position)
                && ArrayMishap(text, cuts, old(position), |old(buffer)|) == Fine
                && |buffer| == ArrayEnd(text, cuts, old(position), |old(buffer)|)
      ensures r.None? ==>
                ReadArray(text, old(position)).Fail? || ArrayMishap(text, cuts, old(position), |old(buffer)|) != Fine
    {
      hide ScanValue, ReadArray, ArrayEnd, ArrayMishap, ArrayOn, Skip, Consistent, EndFrom, LookEnd, LookPos;
      ghost var p0, b0 := position, |buffer|;
      var entries: seq<Value> := [];
      ArrayStarts(text, cuts, p0, b0);
      while true
        invariant Open() && ArrayOn(text, cuts, p0, b0, entries, position, |buffer|)
        decreases |text| - position
      {
        ghost var i, b := position, |buffer|;
        var current := Look();
        if current.None? {
          ArrayOnNothing(text, cuts, p0, b0, entries, i, b);
          return None;
        }
        if current.value == ']' {
          ArrayOnCharacter(text, cuts, p0, b0, entries, i, b);
          position := position + 1;
          return Some(entries);
        }
        if current.value == ',' {
          ArrayOnCharacter(text, cuts, p0, b0, entries, i, b);
          position := position + 1;
          continue;
        }
        var entry := ReadEntry(p0, b0, entries, i, b);
        if entry.None? {
          return None;
        }
        entries := entries + [entry.value];
      }
    }

    // A string key and its colon; None is the error.
    method ReadKeyAndColon() returns (r: Option<seq<int>>)
      requires Open()
      modifies this
      ensures Open()
      ensures var p, f := Skip(text, old(position)), FirstTry(text, cuts, old(position), |old(buffer)|);
              var k, seen := ReadKey(text, p), KeySeen(text, cuts, p, f);
              if r.Some? then
                && k == Done(r.value, position) && position > old(position)
                && !ColonMissed(seen, position - 1) && |buffer| == ColonEnd(text, cuts, seen, position - 1)
              else k.Fail? || ColonMissed(seen, k.end - 1)
    {
      hide ScanValue, ReadKey, Skip, Decoded, ReadFrom, FirstTry, Consistent, EndFrom, LookEnd, LookPos, DecodedEnd, ColonMissed;
      ghost var p, f := Skip(text, position), FirstTry(text, cuts, position, |buffer|);
      var key := DecodeValue();
      if key.None? {
        NoValueNoKey(text, p);
        return None;
      }
      KeyDecoded(text, cuts, p, key.value, position);
      if !key.value.Str? {
        return None;
      }
      DecodedThere(text, cuts, p, f, key.value, position, |buffer|);
      ghost var i, b := position, |buffer|;
      var c := Look();
      assert KeySeen(text, cuts, p, f) == |buffer|;
      if c == Some(':') {
        ColonInSight(text, cuts, i, b);
        position := position + 1;
      } else {
        var ok := ConsumeChar(':');
        if !ok {
          return None;
        }
      }
      return Some(key.value.codes);
    }

    method AllObjects(items: seq<Value>) returns (fine: bool)
      ensures fine <==> forall v :: v in items ==> v.Object?
    {
      var i := 0;
      while i < |items|
        invariant 0 <= i <= |items|
        invariant forall k :: 0 <= k < i ==> items[k].Object?
      {
        if !items[i].Object? {
          return false;
        }
        i := i + 1;
      }
      return true;
    }

    // The value of a key, and whether the loop then goes on without looking for a comma.
    method ReadMemberValue(key: seq<int>) returns (r: Option<seq<Value>>, again: bool)
      requires Open()
      modifies this
      ensures Open()
      ensures r.Some? ==>
                && old(position) < position
                && MemberTaken(text, cuts, key, old(position), |old(buffer)|, r.value, again, position, |buffer|)
      ensures r.None? ==> ReadMember(text, key, Skip(text, old(position))).Reject?
                          || MemberMishap(text, cuts, key, old(position), |old(buffer)|) != Fine
    {
      hide ScanValue, ReadArray, Skip, Decoded, Consistent, ReadFrom, ReadMember, MemberTaken, MemberMishap;
      hide EndFrom, LookEnd, LookPos, ArrayEnd, ArrayMishap, FirstTry;
      ghost var i, b, p := position, |buffer|, Skip(text, position);
      again := false;
      if key == SKILLS {
        var current := Look();
        if current.None? {
          NothingAtEnd(text, p, position);
          NothingTaken(text, cuts, key, i, b);
          return None, false;
        }
        if current.value == '[' {
          position := position + 1;
          r := ReadArrayValues();
          if r.Some? {
            ArrayTaken(text, cuts, i, b, r.value, position, |buffer|);
          } else {
            ArrayNotTaken(text, cuts, i, b);
          }
          return;
        }
        again := true;
        assert FirstTry(text, cuts, position, |buffer|) == LookTry(text, cuts, i, b);
      }
      var value := DecodeValue();
      if value.None? {
        NothingTaken(text, cuts, key, i, b);
        return None, again;
      }
      if again && p < |text| && text[p] == '[' {
        BracketMissed(text, cuts, i, b, value.value, position, |buffer|);
      } else {
        ValueTaken(text, cuts, key, i, b, value.value, position, |buffer|);
      }
      if again && value.value.Array? {
        var fine := AllObjects(value.value.items);
        return if fine then Some(value.value.items) else None, again;
      }
      return Some([]), again;
    }

    // One member, after the entries already taken from an object that started at p0. The look
    // that came before it started at i with the text read up to b and saw no brace.
    method ReadKeyAndValue(ghost p0: nat, ghost b0: nat, ghost entries: seq<Value>, ghost i: nat, ghost b: nat)
      returns (r: Option<seq<Value>>, again: bool)
      requires Open() && p0 <= |text| && i <= |text|
      requires position == LookPos(text, cuts, i, b) && |buffer| == LookEnd(text, cuts, i, b)
      requires Skip(text, position) == Skip(text, i)
      requires Skip(text, i) < |text| && text[Skip(text, i)] == '}' ==> Astray(text, cuts, i, b)
      requires OnTrack(text, cuts, p0, b0, entries, true, i, b)
      modifies this
      ensures Open()
      ensures r.Some? ==> i < position && OnTrack(text, cuts, p0, b0, entries + r.value, again, position, |buffer|)
      ensures r.None? ==> ReadMembers(text, p0).Reject? || MembersMishap(text, cuts, p0, b0) != Fine
    {
      hide ScanValue, ReadKey, Skip, OnTrack, Consistent, ReadMembers, MembersMishap, ReadMember, MemberMishap, MemberTaken;
      hide KeySeen, ColonMissed, ColonEnd, LookPos, LookEnd, FirstTry, Astray;
      assert FirstTry(text, cuts, position, |buffer|) == LookTry(text, cuts, i, b);
      var key := ReadKeyAndColon();
      if key.None? {
        OnTrackNoKey(text, cuts, p0, b0, entries, i, b);
        return None, false;
      }
      ghost var v, vb := position, |buffer|;
      r, again := ReadMemberValue(key.value);
      if r.None? {
        OnTrackStop(text, cuts, p0, b0, entries, i, b, key.value, v, vb);
        return;
      }
      OnTrackMember(text, cuts, p0, b0, entries, i, b, key.value, v, vb, r.value, again, position, |buffer|);
    }

    // What follows a member's value; true at the closing brace.
    method ReadSeparator(ghost p0: nat, ghost b0: nat, ghost entries: seq<Value>) returns (closed: bool)
      requires Open() && p0 <= |text| && OnTrack(text, cuts, p0, b0, entries, false, position, |buffer|)
      modifies this
      ensures Open() && old(position) <= position
      ensures closed ==> ReadMembers(text, p0) == Accept(entries) && MembersMishap(text, cuts, p0, b0) == Fine
      ensures !closed ==> OnTrack(text, cuts, p0, b0, entries, true, position, |buffer|)
    {
      hide Skip, OnTrack, ReadMembers, MembersMishap, Consistent, LookEnd, LookPos;
      ghost var i, b := position, |buffer|;
      var current := Look();
      if current == Some(',') {
        OnTrackComma(text, cuts, p0, b0, entries, i, b);
        position := position + 1;
        return false;
      }
      if current == Some('}') {
        OnTrackBrace(text, cuts, p0, b0, entries, i, b);
        position := position + 1;
        return true;
      }
      OnTrackElse(text, cuts, p0, b0, entries, i, b);
      return false;
    }

    // The entries of a top-level object whose opening brace has been read; None is the error.
    method ReadSkillsFromObject() returns (r: Option<seq<Value>>)
      requires Open()
      modifies this
      ensures Open()
      ensures r.Some? ==> ReadMembers(text, old(position)) == Accept(r.value)
                          && MembersMishap(text, cuts, old(position), |old(buffer)|) == Fine
      ensures r.None? ==> ReadMembers(text, old(position)).Reject?
                          || MembersMishap(text, cuts, old(position), |old(buffer)|) != Fine
    {
      hide ScanValue, ReadKey, Skip, OnTrack, Consistent, ReadMembers, MembersMishap, ReadMember, LookEnd, LookPos;
      ghost var p0, b0 := position, |buffer|;
      var entries: seq<Value> := [];
      Start(text, cuts, p0, b0);
      while true
        invariant Open() && OnTrack(text, cuts, p0, b0, entries, true, position, |buffer|)
        decreases |text| - position
      {
        ghost var i, b := position, |buffer|;
        var current := Look();
        if current.None? {
          NoKeyAtEnd(text, position);
          OnTrackNoKey(text, cuts, p0, b0, entries, i, b);
          return None;
        }
        if current.value == '}' {
          OnTrackEnd(text, cuts, p0, b0, entries, i, b);
          position := position + 1;
          return Some(entries);
        }
        var value, again := ReadKeyAndValue(p0, b0, entries, i, b);
        if value.None? {
          return None;
        }
        entries := entries + value.value;
        if !again {
          var closed := ReadSeparator(p0, b0, entries);
          if closed {
            return Some(entries);
          }
        }
      }
    }

    method ReadTopLevelEntries() returns (out: Outcome)
      requires Valid() && buffer == "" && position == 0 && !eof
      modifies this
      ensures out == ReadIndex(text) || out == Reject
      ensures out == ReadIndex(text) <==> ReadIndex(text).Reject? || ReadMishap(text, cuts) == Fine
    {
      hide ScanValue, Skip, ReadArray, ReadMembers, MembersMishap, ArrayMishap, Consistent, LookEnd, LookPos, EndFrom;
      hide ReadIndex, ReadMishap;
      FillBuffer();
      ghost var b := |buffer|;
      var first := Look();
      if first.None? {
        NothingThere(text, cuts, b);
        return Reject;
      }
      if first.value == '[' {
        ArrayThere(text, cuts, b);
        position := position + 1;
        var entries := ReadArrayValues();
        return if entries.Some? then Accept(entries.value) else Reject;
      }
      if first.value == '{' {
        ObjectThere(text, cuts, b);
        position := position + 1;
        var entries := ReadSkillsFromObject();
        return if entries.Some? then Accept(entries.value) else Reject;
      }
      NothingThere(text, cuts, b);
      return Reject;
    }
  }
  // Reading a file chunk by chunk. Whatever the chunks, the answer is the one for the whole
  // text or a rejection, and it is the one for the whole text exactly when nothing goes wrong:
  // no direct number is read short, and no character that the reader itself has to see is
  // missed. Without blank chunks inside the file none is missed; no number is read short
  // unless it is cut, and where no chunk starts with white space each cut number is.
  method ReadFile(file: seq<string>) returns (out: Outcome)
    requires forall i :: 0 <= i < |file| ==> file[i] != ""
    ensures out == ReadIndex(Flatten(file)) || out == Reject
    ensures var t, cuts := Flatten(file), Boundaries(0, file);
            out == ReadIndex(t) <==> ReadIndex(t).Reject? || !(NumberReadShort(t, cuts) || CharacterMissed(t, cuts))
    ensures NoBlankInside(file) ==>
              (out == ReadIndex(Flatten(file)) <==>
               ReadIndex(Flatten(file)).Reject? || !NumberReadShort(Flatten(file), Boundaries(0, file)))
    ensures NoBlankInside(file) && !DirectNumberCut(Flatten(file), Boundaries(0, file)) ==>
              out == ReadIndex(Flatten(file))
    ensures NoLeadingSpace(file) ==>
              (out == ReadIndex(Flatten(file)) <==>
               ReadIndex(Flatten(file)).Reject? || !DirectNumberCut(Flatten(file), Boundaries(0, file)))
    ensures HidesBracket(Flatten(file), file) ==> out == Reject
  {
    hide ReadIndex, DirectNumberCut, HidesBracket, Flatten, Boundaries;
    ghost var t, cuts := Flatten(file), Boundaries(0, file);
    NoLeadingSpaceNoBlank(file);
    NoLeadingSpaceAfterCut(file);
    if NoBlankInside(file) {
      NothingMissedInside(file);
    }
    if HidesBracket(t, file) {
      HiddenIsMissed(file);
    }
    if NumberReadShort(t, cuts) {
      ShortIsCut(t, cuts);
    } else if DirectNumberCut(t, cuts) && NoLeadingSpace(file) {
      CutIsShort(t, cuts);
    }
    hide NumberReadShort, CharacterMissed, NoBlankInside, NoLeadingSpace;
    FineOrNot(t, cuts);
    var reader := new Reader(file);
    out := reader.ReadTopLevelEntries();
  }

  lemma FineOrNot(t: string, cuts: set<nat>)
    ensures ReadMishap(t, cuts) == Fine <==> !(NumberReadShort(t, cuts) || CharacterMissed(t, cuts))
  {
    hide ReadMishap;
  }

  // What reads of n characters give: full chunks and a last one that may be shorter.
  predicate ReadBy(n: nat, file: seq<string>) {
    forall i :: 0 <= i < |file| ==> if i < |file| - 1 then |file[i]| == n else 0 < |file[i]| <= n
  }
}
