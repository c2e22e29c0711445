/**
 The streaming read against a decode of the whole document: on a document that is an array,
 or an object with at most one `skills` key, it gives the same entries.
 */
module IndexDocuments {
  import opened Prelude
  import opened JsonScanner
  import opened SkillsIndex
  import opened IndexSteps

  // `json.loads`: one value with nothing but white space around it.
  function Loads(t: string): Option<Value> {
    match ScanValue(t, SkipSpace(t, 0))
    case Fail => None
    case Done(v, e) => if SkipSpace(t, e) == |t| then Some(v) else None
  }

  function OnlyObjects(vs: seq<Value>): (r: seq<Value>)
    ensures (forall v :: v in vs ==> v.Object?) <==> r == vs
    ensures |r| <= |vs|
  {
    if vs == [] then []
    else if vs[0].Object? then
      var rest := OnlyObjects(vs[1..]);
      assert vs == [vs[0]] + vs[1..];
      [vs[0]] + rest
    else OnlyObjects(vs[1..])
  }

  // A decoded object is a dict, so the last of several equal keys wins.
  function Lookup(members: seq<Member>, key: seq<int>): (r: Option<Value>)
    ensures r.None? <==> forall m :: m in members ==> m.key != key
  {
    if members == [] then None
    else
      var last := members[|members| - 1];
      assert members == members[..|members| - 1] + [last];
      if last.key == key then Some(last.value) else Lookup(members[..|members| - 1], key)
  }

  function CoerceEntries(payload: Value): seq<Value> {
    match payload
    case Array(items) => OnlyObjects(items)
    case Object(members) =>
      (match Lookup(members, SKILLS)
       case Some(Array(items)) => OnlyObjects(items)
       case _ => [])
    case _ => []
  }

  predicate ArrayOfObjects(v: Value) {
    v.Array? && forall u :: u in v.items ==> u.Object?
  }

  // Every `skills` value is an array of objects, or the last of all members and not an array.
  predicate Readable(members: seq<Member>) {
    forall k :: 0 <= k < |members| && members[k].key == SKILLS ==>
      ArrayOfObjects(members[k].value) || (k == |members| - 1 && !members[k].value.Array?)
  }

  // Every `skills` value that another one follows is an empty array.
  predicate OneInUse(members: seq<Member>) {
    forall k, m :: 0 <= k < m < |members| && members[k].key == SKILLS && members[m].key == SKILLS ==>
      members[k].value == Array([])
  }

  function EntriesOf(m: Member): seq<Value> {
    if m.key == SKILLS && m.value.Array? then m.value.items else []
  }

  // The entries of all `skills` arrays, in document order.
  function AllSkills(members: seq<Member>): seq<Value> {
    if members == [] then [] else EntriesOf(members[0]) + AllSkills(members[1..])
  }

  lemma ArrayDocument(t: string, items: seq<Value>)
    requires Loads(t) == Some(Array(items))
    ensures ReadIndex(t) == Accept(CoerceEntries(Array(items))) <==> forall v :: v in items ==> v.Object?
    ensures !(forall v :: v in items ==> v.Object?) ==> ReadIndex(t) == Reject
  {
    var p := SkipSpace(t, 0);
    ValueStart(t, p);
    SpaceIsSpace(t, 0);
    if forall v :: v in items ==> v.Object? {
      ArrayRead(t, p);
    } else {
      var j := SkipSpace(t, p + 1);
      ItemsRejected(t, j);
      ItemsStart(t, j);
      SpaceIsSpace(t, p + 1);
      assert ReadArray(t, p + 1) == ReadArray(t, j) by { SameArray(t, p + 1, j); }
    }
  }

  lemma StringValue(t: string, i: nat)
    requires i < |t| && t[i] == '"' && ScanString(t, i + 1).Done?
    ensures ScanValue(t, i) == Done(Str(ScanString(t, i + 1).value), ScanString(t, i + 1).end)
    ensures Skip(t, i) == i
  {
    hide ScanString;
  }

  lemma ColonRead(t: string, e: nat, k: nat, v: nat)
    requires e <= |t| && k == SkipSpace(t, e) && k < |t| && t[k] == ':'
    requires v == SkipSpace(t, k + 1) && v < |t| && !IsSpace(t[v])
    ensures Skip(t, e) == k && Skip(t, k + 1) == v
  {
    hide Skip, SkipSpace;
    SpaceIsSpace(t, e);
    SpaceIsSpace(t, k + 1);
  }

  lemma KeyRead(t: string, i: nat)
    requires i <= |t| && ScanKey(t, i).Done? && ScanValue(t, ScanKey(t, i).end).Done?
    ensures Skip(t, i) == i && t[i] == '"'
    ensures ReadKey(t, i).Done? && ReadKey(t, i).value == ScanKey(t, i).value
    ensures Skip(t, ReadKey(t, i).end) == ScanKey(t, i).end
  {
    hide ScanValue, ScanString, Skip, SkipSpace, IsSpace;
    ValueStart(t, ScanKey(t, i).end);
    StringValue(t, i);
    var e := ScanString(t, i + 1).end;
    ColonRead(t, e, SkipSpace(t, e), ScanKey(t, i).end);
  }

  lemma AfterRead(t: string, e: nat)
    requires e <= |t|
    ensures var sep := SeparatorAt(t, e, '}');
            && (sep.Close? ==> AfterValue(t, e) == Accept([]))
            && (sep.More? ==> AfterValue(t, e) == ReadMembers(t, SkipSpace(t, e) + 1)
                              && sep.next == SkipSpace(t, SkipSpace(t, e) + 1))
  {
    hide ReadMembers;
    if !SeparatorAt(t, e, '}').Neither? {
      SpaceIsSpace(t, e);
    }
  }

  // How the lenient reading takes one member: an array of objects in full; a `skills` value
  // that is no array as nothing, but then it does not look for a comma; other arrays not at all.
  lemma MemberRead(t: string, i: nat)
    requires i <= |t| && ScanKey(t, i).Done? && ScanValue(t, ScanKey(t, i).end).Done?
    ensures var m, e := Member(ScanKey(t, i).value, ScanValue(t, ScanKey(t, i).end).value), ScanValue(t, ScanKey(t, i).end).end;
            ReadMembers(t, i) ==
            if m.key != SKILLS || ArrayOfObjects(m.value) then Join(EntriesOf(m), AfterValue(t, e))
            else if m.value.Array? then Reject
            else ReadMembers(t, e)
  {
    KeyRead(t, i);
    var key, v := ScanKey(t, i).value, ScanKey(t, i).end;
    ValueStart(t, v);
    if key == SKILLS && t[v] == '[' {
      if ArrayOfObjects(ScanValue(t, v).value) {
        ArrayRead(t, v);
      } else {
        ArrayRejected(t, v);
      }
    }
    MemberReadHere(t, i, key, v);
  }

  lemma MemberReadHere(t: string, i: nat, key: seq<int>, v: nat)
    requires i < |t| && v < |t| && t[i] == '"' && Skip(t, i) == i && ScanValue(t, v).Done?
    requires ReadKey(t, i).Done? && ReadKey(t, i).value == key && Skip(t, ReadKey(t, i).end) == v
    requires ScanValue(t, v).value.Array? <==> t[v] == '['
    requires key == SKILLS && t[v] == '[' ==>
               if ArrayOfObjects(ScanValue(t, v).value)
               then ReadArray(t, v + 1) == Done(ScanValue(t, v).value.items, ScanValue(t, v).end)
               else ReadArray(t, v + 1).Fail?
    ensures var m, e := Member(key, ScanValue(t, v).value), ScanValue(t, v).end;
            ReadMembers(t, i) ==
            if m.key != SKILLS || ArrayOfObjects(m.value) then Join(EntriesOf(m), AfterValue(t, e))
            else if m.value.Array? then Reject
            else ReadMembers(t, e)
  {
    hide ScanValue, ReadKey, Skip, AfterValue, ReadArray, ArrayOfObjects;
    JoinStep([], [], AfterValue(t, ScanValue(t, v).end));
    NotArray(ScanValue(t, v).value);
  }

  lemma NotArray(v: Value)
    ensures ArrayOfObjects(v) ==> v.Array?
  {
  }

  // One step of the strict reading of members.
  lemma MembersStep(t: string, i: nat)
    requires i <= |t| && ScanMembers(t, i).Done?
    ensures ScanKey(t, i).Done? && ScanValue(t, ScanKey(t, i).end).Done?
    ensures var members, scan := ScanMembers(t, i).value, ScanValue(t, ScanKey(t, i).end);
            var sep := SeparatorAt(t, scan.end, '}');
            && members[0] == Member(ScanKey(t, i).value, scan.value) && members[0] in members
            && !sep.Neither?
            && (sep.Close? ==> members[1..] == [])
            && (sep.More? ==> i < sep.next && ScanMembers(t, sep.next) == Done(members[1..], ScanMembers(t, i).end))
  {
    hide ScanValue, ScanKey, SeparatorAt;
  }

  // What the lenient reading does behind a value, with and without looking for a comma.
  lemma BehindValue(t: string, e: nat)
    requires e <= |t| && !SeparatorAt(t, e, '}').Neither?
    ensures var sep := SeparatorAt(t, e, '}');
            && (sep.Close? ==> AfterValue(t, e) == Accept([]) && ReadMembers(t, e) == Accept([]))
            && (sep.More? ==> ReadMembers(t, e).Reject?)
            && (sep.More? && ScanMembers(t, sep.next).Done? ==> AfterValue(t, e) == ReadMembers(t, sep.next))
  {
    hide ScanMembers, ReadMember;
    AfterRead(t, e);
    SpaceIsSpace(t, e);
    CommaOnly(t, e);
    if SeparatorAt(t, e, '}').More? && ScanMembers(t, SeparatorAt(t, e, '}').next).Done? {
      NextMember(t, SkipSpace(t, e) + 1);
    }
  }

  lemma {:induction false} ReadableStep(members: seq<Member>)
    requires members != []
    ensures Readable(members) <==>
            && Readable(members[1..])
            && (members[0].key == SKILLS ==>
                  ArrayOfObjects(members[0].value) || (members[1..] == [] && !members[0].value.Array?))
  {
    hide ArrayOfObjects;
    var rest := members[1..];
    if Readable(members) {
      forall k | 0 <= k < |rest| && rest[k].key == SKILLS
        ensures ArrayOfObjects(rest[k].value) || (k == |rest| - 1 && !rest[k].value.Array?)
      {
        assert rest[k] == members[k + 1];
      }
    }
    if Readable(rest) {
      forall k | 1 <= k < |members| && members[k].key == SKILLS
        ensures ArrayOfObjects(members[k].value) || (k == |members| - 1 && !members[k].value.Array?)
      {
        assert members[k] == rest[k - 1];
      }
    }
  }

  lemma {:induction false} MembersRead(t: string, i: nat)
    requires i <= |t| && ScanMembers(t, i).Done?
    ensures ReadMembers(t, i) == if Readable(ScanMembers(t, i).value) then Accept(AllSkills(ScanMembers(t, i).value)) else Reject
    decreases |t| - i
  {
    hide ScanMembers, ScanValue, ScanKey, SeparatorAt, ReadMembers, AfterValue, Readable, ArrayOfObjects, EntriesOf;
    MembersStep(t, i);
    var members, e := ScanMembers(t, i).value, ScanValue(t, ScanKey(t, i).end).end;
    var sep := SeparatorAt(t, e, '}');
    ReadableStep(members);
    MemberRead(t, i);
    BehindValue(t, e);
    NoEntries(members[0]);
    if sep.More? {
      MembersRead(t, sep.next);
      MembersStep(t, sep.next);
    } else {
      NothingLeft();
    }
    JoinAccept(EntriesOf(members[0]), AllSkills(members[1..]));
  }

  lemma NothingLeft()
    ensures Readable([]) && AllSkills([]) == []
  {
  }

  lemma NoEntries(m: Member)
    ensures m.key == SKILLS && !m.value.Array? ==> EntriesOf(m) == [] && !ArrayOfObjects(m.value)
  {
  }

  lemma JoinAccept(xs: seq<Value>, ys: seq<Value>)
    ensures Join(xs, Accept(ys)) == Accept(xs + ys) && Join(xs, Reject) == Reject
    ensures xs == [] ==> xs + ys == ys
  {
  }

  lemma NextMember(t: string, j: nat)
    requires j <= |t| && ScanMembers(t, SkipSpace(t, j)).Done?
    ensures ReadMembers(t, j) == ReadMembers(t, SkipSpace(t, j))
  {
    KeyRead(t, SkipSpace(t, j));
    SpaceIsSpace(t, j);
    SameMembers(t, j, SkipSpace(t, j));
  }

  // What coercion takes, from the front of the document.
  lemma {:induction false} CoerceStep(members: seq<Member>)
    requires members != []
    ensures CoerceEntries(Object(members)) ==
            if Lookup(members[1..], SKILLS).Some? then CoerceEntries(Object(members[1..]))
            else OnlyObjects(EntriesOf(members[0]))
  {
    LookupFirst(members, SKILLS);
    hide Lookup;
    assert OnlyObjects([]) == [];
  }

  lemma {:induction false} OneInUseStep(members: seq<Member>)
    requires members != []
    ensures OneInUse(members) <==>
            && OneInUse(members[1..])
            && (members[0].key == SKILLS && Lookup(members[1..], SKILLS).Some? ==> members[0].value == Array([]))
  {
    var rest := members[1..];
    assert forall k :: 0 <= k < |rest| ==> rest[k] == members[k + 1];
    if Lookup(rest, SKILLS).Some? {
      var m :| m in rest && m.key == SKILLS;
      var k :| 0 <= k < |rest| && rest[k] == m;
      assert members[k + 1] == m;
    }
    hide Lookup;
    if OneInUse(members) {
      forall k, m | 0 <= k < m < |rest| && rest[k].key == SKILLS && rest[m].key == SKILLS
        ensures rest[k].value == Array([])
      {
        assert members[k + 1] == rest[k] && members[m + 1] == rest[m];
      }
    }
    if OneInUse(rest) && (members[0].key == SKILLS && Lookup(rest, SKILLS).Some? ==> members[0].value == Array([])) {
      forall k, m | 0 <= k < m < |members| && members[k].key == SKILLS && members[m].key == SKILLS
        ensures members[k].value == Array([])
      {
        assert members[m] == rest[m - 1] && rest[m - 1] in rest;
        if k > 0 {
          assert members[k] == rest[k - 1];
        }
      }
    }
  }

  // All entries together are what coercion takes exactly if only one array is in use.
  lemma {:induction false} SameEntriesIff(members: seq<Member>)
    requires Readable(members)
    ensures AllSkills(members) == CoerceEntries(Object(members)) <==> OneInUse(members)
    ensures |AllSkills(members)| >= |CoerceEntries(Object(members))|
    ensures Lookup(members, SKILLS).None? ==> AllSkills(members) == []
  {
    hide Lookup, CoerceEntries, Readable, OneInUse, OnlyObjects, ArrayOfObjects;
    if members == [] {
      NothingCoerced();
    } else {
      var rest, head := members[1..], members[0];
      ReadableStep(members);
      SameEntriesIff(rest);
      CoerceStep(members);
      NothingLookedUp(rest);
      OneInUseStep(members);
      LookupFirst(members, SKILLS);
      HeadEntries(head);
      NotArray(head.value);
      JoinAccept(EntriesOf(head), AllSkills(rest));
      assert AllSkills(members) == EntriesOf(head) + AllSkills(rest);
      assert |AllSkills(members)| == |EntriesOf(head)| + |AllSkills(rest)|;
      if Lookup(rest, SKILLS).None? {
        assert EntriesOf(head) + [] == EntriesOf(head);
      }
    }
  }

  lemma NothingLookedUp(members: seq<Member>)
    ensures Lookup(members, SKILLS).None? ==> CoerceEntries(Object(members)) == []
  {
  }

  lemma NothingCoerced()
    ensures CoerceEntries(Object([])) == [] && OneInUse([])
  {
  }

  lemma HeadEntries(m: Member)
    ensures ArrayOfObjects(m.value) ==> OnlyObjects(EntriesOf(m)) == EntriesOf(m)
    ensures m.key != SKILLS || !m.value.Array? ==> EntriesOf(m) == [] && OnlyObjects(EntriesOf(m)) == []
    ensures m.key == SKILLS && EntriesOf(m) == [] && m.value.Array? ==> m.value == Array([])
    ensures m.value == Array([]) ==> EntriesOf(m) == []
  {
  }

  lemma {:induction false} LookupFirst(members: seq<Member>, key: seq<int>)
    requires members != []
    ensures Lookup(members, key) ==
            if Lookup(members[1..], key).Some? then Lookup(members[1..], key)
            else if members[0].key == key then Some(members[0].value) else None
    decreases |members|
  {
    if |members| > 1 {
      var init := members[..|members| - 1];
      LookupFirst(init, key);
      assert members[1..][..|members[1..]| - 1] == init[1..];
    }
  }

  // An object document gives all its `skills` arrays, one after the other, or is rejected when
  // one of them holds anything but objects or a `skills` value that is no array is not the last
  // member. That is what the decoded dict gives exactly if it is not rejected and no array
  // with entries is followed by another `skills` value.
  lemma ObjectDocument(t: string, members: seq<Member>)
    requires Loads(t) == Some(Object(members))
    ensures ReadIndex(t) == if Readable(members) then Accept(AllSkills(members)) else Reject
    ensures ReadIndex(t) == Accept(CoerceEntries(Object(members))) <==> Readable(members) && OneInUse(members)
  {
    hide Readable, OneInUse, AllSkills, CoerceEntries;
    var p := SkipSpace(t, 0);
    ValueStart(t, p);
    SpaceIsSpace(t, 0);
    var j := SkipSpace(t, p + 1);
    if t[j] == '}' {
      SpaceIsSpace(t, p + 1);
      NothingLeft();
    } else {
      MembersRead(t, j);
      NextMember(t, p + 1);
    }
    if Readable(members) {
      SameEntriesIff(members);
    }
  }
}
