/**
 The texts the reader takes for a skills index, as a grammar: the strict documents and the
 looser ones, in which commas are missing or too many and anything may follow the end.
 */
module LenientIndexes {
  import opened JsonScanner
  import opened SkillsIndex
  import opened IndexSteps
  import opened JsonWriter
  import opened JsonRoundTrip
  import opened JsonGrammar
  import opened WrittenIndexes
  import opened Mishaps
  import opened StreamingReader

  // ---------- entries ----------

  // White space in Python's sense, and commas.
  predicate Gap(s: string) {
    forall k :: 0 <= k < |s| ==> IsSpace(s[k]) || s[k] == ','
  }

  predicate Blanks(s: string) {
    forall k :: 0 <= k < |s| ==> IsSpace(s[k])
  }

  datatype LooseItem = LooseItem(gap: string, doc: Doc)

  predicate LooseOk(items: seq<LooseItem>) {
    forall k :: 0 <= k < |items| ==> Gap(items[k].gap) && DocOk(items[k].doc) && items[k].doc.Dict?
  }

  function LooseSpelled(items: seq<LooseItem>, last: string): string
    requires LooseOk(items)
  {
    if items == [] then last + "]" else items[0].gap + (Spelled(items[0].doc) + LooseSpelled(items[1..], last))
  }

  function LooseMeanings(items: seq<LooseItem>): seq<Value>
    requires LooseOk(items)
  {
    if items == [] then [] else [Meaning(items[0].doc)] + LooseMeanings(items[1..])
  }

  lemma {:induction false} GapSkipped(t: string, i: nat, gap: string)
    requires At(t, i, gap) && Gap(gap) && i + |gap| < |t|
    ensures ReadArray(t, i) == ReadArray(t, i + |gap|)
    decreases |gap|
  {
    hide At, ReadArray;
    if gap != "" {
      HeadAt(t, i, gap);
      GapSkipped(t, i + 1, gap[1..]);
      if gap[0] == ',' {
        CommaPassed(t, i);
      } else {
        SpacePassed(t, i);
        SameArray(t, i, i + 1);
      }
    }
  }

  lemma CommaPassed(t: string, i: nat)
    requires i < |t| && t[i] == ','
    ensures ReadArray(t, i) == ReadArray(t, i + 1)
  {
    hide ScanValue;
    assert Skip(t, i) == i;
  }

  lemma SpacePassed(t: string, i: nat)
    requires i < |t| && IsSpace(t[i])
    ensures Skip(t, i) == Skip(t, i + 1)
  {
  }

  // An object behind a gap is the next entry.
  lemma {:induction false} ItemRead(t: string, i: nat, gap: string, doc: Doc, rest: string)
    requires Gap(gap) && DocOk(doc) && doc.Dict? && At(t, i, gap + (Spelled(doc) + rest))
    ensures var e := i + |gap| + |Spelled(doc)|;
            e <= |t| && At(t, e, rest) && ReadArray(t, i) == Prepend(Meaning(doc), ReadArray(t, e))
  {
    hide At, ReadArray, Spelled, Meaning, DocOk, Gap, ScanValue;
    Parts(t, i, gap, Spelled(doc) + rest);
    var p := i + |gap|;
    Parts(t, p, Spelled(doc), rest);
    DictBrace(doc);
    CharAt(t, p, Spelled(doc), 0);
    GapSkipped(t, i, gap);
    DocRead(t, p, doc);
    DictIsObject(doc);
    EntryTaken(t, p);
  }

  lemma DictBrace(d: Doc)
    requires DocOk(d) && d.Dict?
    ensures Spelled(d) != "" && Spelled(d)[0] == '{'
  {
    hide SpelledEntries;
  }

  lemma EntryTaken(t: string, p: nat)
    requires p < |t| && t[p] == '{' && ScanValue(t, p).Done? && ScanValue(t, p).value.Object?
    ensures ReadArray(t, p) == Prepend(ScanValue(t, p).value, ReadArray(t, ScanValue(t, p).end))
  {
    hide ScanValue;
    assert Skip(t, p) == p;
  }

  lemma LooseHead(items: seq<LooseItem>, last: string)
    requires LooseOk(items)
    ensures items == [] ==> LooseSpelled(items, last) == last + "]" && LooseMeanings(items) == []
    ensures items != [] ==>
              && Gap(items[0].gap) && DocOk(items[0].doc) && items[0].doc.Dict? && LooseOk(items[1..])
              && LooseSpelled(items, last) == items[0].gap + (Spelled(items[0].doc) + LooseSpelled(items[1..], last))
              && LooseMeanings(items) == [Meaning(items[0].doc)] + LooseMeanings(items[1..])
  {
    hide Spelled, Meaning, DocOk, Gap;
  }

  // Objects with any white space and any commas around them, up to the closing bracket.
  lemma {:induction false} LooseArrayRead(t: string, i: nat, items: seq<LooseItem>, last: string)
    requires LooseOk(items) && Gap(last)
    requires At(t, i, LooseSpelled(items, last))
    ensures i + |LooseSpelled(items, last)| <= |t|
    ensures ReadArray(t, i) == Done(LooseMeanings(items), i + |LooseSpelled(items, last)|)
    decreases |items|
  {
    hide At, ReadArray, Spelled, Meaning, DocOk, Gap, ScanValue, LooseSpelled, LooseMeanings, LooseOk;
    Fits(t, i, LooseSpelled(items, last));
    LooseHead(items, last);
    if items == [] {
      Parts(t, i, last, "]");
      CharAt(t, i + |last|, "]", 0);
      GapSkipped(t, i, last);
      BracketEnds(t, i + |last|);
    } else {
      var gap, doc, rest := items[0].gap, items[0].doc, LooseSpelled(items[1..], last);
      ItemRead(t, i, gap, doc, rest);
      LooseArrayRead(t, i + |gap| + |Spelled(doc)|, items[1..], last);
    }
  }

  lemma BracketEnds(t: string, i: nat)
    requires i < |t| && t[i] == ']'
    ensures ReadArray(t, i) == Done([], i + 1)
  {
    hide ScanValue;
    assert Skip(t, i) == i;
  }

  lemma DictIsObject(d: Doc)
    requires DocOk(d)
    ensures Meaning(d).Object? <==> d.Dict?
    ensures Meaning(d).Array? <==> d.List?
    ensures Meaning(d).Number? <==> d.Numeric?
  {
    hide CodesOf, Meanings, MemberMeanings;
  }

  // A member, with at most one comma behind it. The value of `skills` is a loose array, or no
  // array at all, and then no comma may follow.
  datatype LooseValue = Other(doc: Doc) | Entries(items: seq<LooseItem>, last: string)

  datatype LooseMember = LooseMember(lead: string, key: seq<Piece>, beforeColon: string, afterColon: string,
                                     value: LooseValue, trail: string, comma: bool)

  predicate IsSkills(key: seq<Piece>)
    requires PiecesOk(key)
  {
    CodesOf(key) == SKILLS
  }

  predicate LooseMemberOk(m: LooseMember) {
    && Blanks(m.lead) && PiecesOk(m.key) && Blanks(m.beforeColon) && Blanks(m.afterColon) && Blanks(m.trail)
    && match m.value {
         case Entries(items, last) => IsSkills(m.key) && LooseOk(items) && Gap(last)
         case Other(doc) => DocOk(doc) && (IsSkills(m.key) ==> !doc.List? && !m.comma)
       }
  }

  predicate ValueOk(value: LooseValue) {
    match value
    case Entries(items, last) => LooseOk(items) && Gap(last)
    case Other(doc) => DocOk(doc)
  }

  function SpelledValue(value: LooseValue): string
    requires ValueOk(value)
  {
    match value
    case Entries(items, last) => "[" + LooseSpelled(items, last)
    case Other(doc) => Spelled(doc)
  }

  function EntriesOf(value: LooseValue): seq<Value>
    requires ValueOk(value)
  {
    if value.Entries? then LooseMeanings(value.items) else []
  }

  function ValueSpelled(m: LooseMember): string
    requires LooseMemberOk(m)
  {
    SpelledValue(m.value)
  }

  function Taken(m: LooseMember): seq<Value>
    requires LooseMemberOk(m)
  {
    EntriesOf(m.value)
  }

  predicate MembersOk(ms: seq<LooseMember>) {
    forall k :: 0 <= k < |ms| ==> LooseMemberOk(ms[k])
  }

  function Comma(m: LooseMember): string {
    if m.comma then "," else ""
  }

  function LooseMembersSpelled(ms: seq<LooseMember>, last: string): string
    requires MembersOk(ms)
  {
    if ms == [] then last + "}"
    else
      var m := ms[0];
      assert LooseMemberOk(m);
      m.lead + (SpelledString(m.key) + (m.beforeColon + (":" +
        (m.afterColon + (ValueSpelled(m) + (m.trail + (Comma(m) + LooseMembersSpelled(ms[1..], last))))))))
  }

  function AllTaken(ms: seq<LooseMember>): seq<Value>
    requires MembersOk(ms)
  {
    if ms == [] then [] else Taken(ms[0]) + AllTaken(ms[1..])
  }

  lemma {:induction false} BlanksSkipped(t: string, i: nat, ws: string)
    requires At(t, i, ws) && Blanks(ws) && i + |ws| <= |t|
    ensures Skip(t, i) == Skip(t, i + |ws|)
    decreases |ws|
  {
    hide At;
    if ws != "" {
      HeadAt(t, i, ws);
      BlanksSkipped(t, i + 1, ws[1..]);
    }
  }

  // What stands behind a value never goes on with a number.
  lemma {:induction false} RestEnds(t: string, i: nat, trail: string, comma: string, ms: seq<LooseMember>, last: string)
    requires MembersOk(ms) && Blanks(trail) && Blanks(last) && (comma == "" || comma == ",")
    requires At(t, i, trail + (comma + LooseMembersSpelled(ms, last)))
    ensures Ends(t, i)
  {
    hide At, LooseMembersSpelled, LooseMemberOk, MembersOk;
    MembersStart(ms, last);
    GapEnds(t, i, trail, comma, LooseMembersSpelled(ms, last));
  }

  lemma {:induction false} GapEnds(t: string, i: nat, trail: string, comma: string, rest: string)
    requires Blanks(trail) && (comma == "" || comma == ",")
    requires rest != "" && (IsSpace(rest[0]) || rest[0] == '"' || rest[0] == '}')
    requires At(t, i, trail + (comma + rest))
    ensures Ends(t, i)
  {
    hide At;
    Parts(t, i, trail, comma + rest);
    Parts(t, i + |trail|, comma, rest);
    if trail != "" {
      CharAt(t, i, trail, 0);
      assert IsSpace(trail[0]);
    } else if comma != "" {
      CharAt(t, i, comma, 0);
    } else {
      CharAt(t, i, rest, 0);
    }
  }

  lemma MembersStart(ms: seq<LooseMember>, last: string)
    requires MembersOk(ms) && Blanks(last)
    ensures var s := LooseMembersSpelled(ms, last);
            s != "" && (IsSpace(s[0]) || s[0] == '"' || s[0] == '}')
  {
    if ms != [] {
      var m := ms[0];
      assert LooseMemberOk(m);
      PiecesEach(m.key);
      hide SpelledPieces, ValueSpelled, DocOk, PiecesOk, LooseOk;
    }
  }

  // What stands behind the colon of a member.
  function BehindColon(m: LooseMember, rest: string): string
    requires LooseMemberOk(m)
  {
    m.afterColon + (ValueSpelled(m) + (m.trail + (Comma(m) + rest)))
  }

  lemma BehindColonParts(m: LooseMember, rest: string)
    requires LooseMemberOk(m)
    ensures BehindColon(m, rest) == m.afterColon + (ValueSpelled(m) + (m.trail + (Comma(m) + rest)))
  {
  }

  lemma LooseMembersHead(ms: seq<LooseMember>, last: string)
    requires MembersOk(ms)
    ensures ms == [] ==> LooseMembersSpelled(ms, last) == last + "}" && AllTaken(ms) == []
    ensures ms != [] ==>
              var m := ms[0];
              && LooseMemberOk(m) && Blanks(m.lead) && PiecesOk(m.key) && EachOk(m.key) && Blanks(m.beforeColon)
              && Blanks(m.afterColon) && Blanks(m.trail) && MembersOk(ms[1..])
              && LooseMembersSpelled(ms, last) ==
                   m.lead + (SpelledString(m.key) + (m.beforeColon + (":" + BehindColon(m, LooseMembersSpelled(ms[1..], last)))))
              && AllTaken(ms) == Taken(m) + AllTaken(ms[1..])
  {
    hide ValueSpelled, SpelledString, Taken, DocOk, LooseOk, Gap, IsSkills;
    if ms != [] {
      assert LooseMemberOk(ms[0]);
    }
  }

  lemma {:induction false} LooseKeyRead(t: string, i: nat, lead: string, key: seq<Piece>, before: string, rest: string)
    requires Blanks(lead) && Blanks(before) && PiecesOk(key) && EachOk(key)
    requires At(t, i, lead + (SpelledString(key) + (before + (":" + rest))))
    ensures var k := i + |lead|;
            var c := k + |SpelledString(key)| + |before|;
            && k < |t| && Skip(t, i) == k && t[k] == '"' && c < |t|
            && ReadKey(t, k) == Done(CodesOf(key), c + 1) && At(t, c + 1, rest)
  {
    hide At, ScanValue, ScanString, SpelledString, Blanks, PiecesOk, EachOk, CodesOf;
    KeyParts(t, i, lead, SpelledString(key), before, rest);
    var k := i + |lead|;
    QuotedRead(t, k, key);
    BlanksSkipped(t, i, lead);
    BlanksSkipped(t, k + |SpelledString(key)|, before);
  }

  lemma DocNotBlank(d: Doc)
    requires DocOk(d)
    ensures Spelled(d) != "" && !IsSpace(Spelled(d)[0]) && (Spelled(d)[0] == '[' <==> d.List?)
  {
    match d {
      case Literal(_) => NoBracket(d);
      case Numeric(_) => NoBracket(d);
      case Quoted(_) => NoBracket(d);
      case List(_, _) =>
      case Dict(_, _) =>
    }
    hide SpelledPieces, SpelledNumeral, SpelledSlots, SpelledEntries;
  }

  lemma ValueStart(m: LooseMember)
    requires LooseMemberOk(m)
    ensures ValueSpelled(m) != "" && !IsSpace(ValueSpelled(m)[0])
    ensures IsSkills(m.key) ==> (ValueSpelled(m)[0] == '[' <==> m.value.Entries?)
  {
    hide Spelled, DocOk, LooseSpelled, LooseOk, Blanks, Gap;
    match m.value {
      case Other(doc) => DocNotBlank(doc);
      case Entries(items, last) =>
    }
  }

  // With no comma behind a value, reading on is reading the next member.
  lemma AfterIsMembers(t: string, i: nat)
    requires i <= |t| && ReadMembers(t, i).Accept?
    ensures AfterValue(t, i) == ReadMembers(t, i)
  {
    hide ReadArray, ReadMember;
  }

  lemma SameMembers(t: string, i: nat, j: nat)
    requires i <= |t| && j <= |t| && Skip(t, i) == Skip(t, j)
    ensures ReadMembers(t, i) == ReadMembers(t, j) && AfterValue(t, i) == AfterValue(t, j)
  {
    hide ReadArray, ReadMember, ReadKey;
  }

  lemma BraceEnds(t: string, i: nat)
    requires i < |t| && t[i] == '}'
    ensures ReadMembers(t, i) == Accept([])
  {
    assert Skip(t, i) == i;
  }

  lemma {:induction false} BehindValue(t: string, e: nat, trail: string, comma: string)
    requires Blanks(trail) && (comma == "" || comma == ",") && At(t, e, trail + comma) && e + |trail + comma| <= |t|
    requires ReadMembers(t, e + |trail + comma|).Accept?
    ensures AfterValue(t, e) == ReadMembers(t, e + |trail + comma|)
    ensures comma == "" ==> ReadMembers(t, e) == ReadMembers(t, e + |trail + comma|)
  {
    hide At, ReadMembers, AfterValue, Blanks;
    Parts(t, e, trail, comma);
    BlanksSkipped(t, e, trail);
    SameMembers(t, e, e + |trail|);
    if comma == "" {
      AfterIsMembers(t, e + |trail|);
    } else {
      CharAt(t, e + |trail|, comma, 0);
      CommaThenMembers(t, e + |trail|);
    }
  }

  lemma CommaThenMembers(t: string, i: nat)
    requires i < |t| && t[i] == ','
    ensures AfterValue(t, i) == ReadMembers(t, i + 1)
  {
    hide ReadMembers;
    assert Skip(t, i) == i;
  }

  lemma {:induction false} EntriesTaken(t: string, p: nat, items: seq<LooseItem>, last: string)
    requires LooseOk(items) && Gap(last) && At(t, p, "[" + LooseSpelled(items, last))
    ensures var e := p + |"[" + LooseSpelled(items, last)|;
            e <= |t| && ReadMember(t, SKILLS, p) == Join(LooseMeanings(items), AfterValue(t, e))
  {
    hide At, ReadArray, LooseSpelled, LooseMeanings, LooseOk, Gap, AfterValue, ScanValue;
    Parts(t, p, "[", LooseSpelled(items, last));
    CharAt(t, p, "[", 0);
    LooseArrayRead(t, p + 1, items, last);
  }

  lemma {:induction false} OtherPassed(t: string, p: nat, key: seq<int>, doc: Doc)
    requires DocOk(doc) && At(t, p, Spelled(doc)) && Ends(t, p + |Spelled(doc)|) && p + |Spelled(doc)| <= |t|
    requires key == SKILLS ==> !doc.List?
    ensures var e := p + |Spelled(doc)|;
            ReadMember(t, key, p) == if key == SKILLS then ReadMembers(t, e) else AfterValue(t, e)
  {
    hide At, ReadArray, Spelled, DocOk, Meaning, AfterValue, ReadMembers, ScanValue;
    DocNotBlank(doc);
    CharAt(t, p, Spelled(doc), 0);
    DocRead(t, p, doc);
  }

  lemma {:induction false} ValueTaken(t: string, p: nat, m: LooseMember, rest: nat)
    requires LooseMemberOk(m) && At(t, p, ValueSpelled(m)) && p + |ValueSpelled(m)| <= |t|
    requires var e := p + |ValueSpelled(m)|;
             && Ends(t, e) && At(t, e, m.trail + Comma(m)) && rest == e + |m.trail + Comma(m)| <= |t|
    requires ReadMembers(t, rest).Accept?
    ensures ReadMember(t, CodesOf(m.key), p) == Join(Taken(m), ReadMembers(t, rest))
  {
    hide At, Spelled, DocOk, AfterValue, ReadMembers, ReadMember, LooseSpelled, LooseMeanings, LooseOk, Gap,
         CodesOf, Blanks, Ends;
    var e := p + |ValueSpelled(m)|;
    BehindValue(t, e, m.trail, Comma(m));
    match m.value {
      case Entries(items, last) => EntriesTaken(t, p, items, last);
      case Other(doc) => OtherPassed(t, p, CodesOf(m.key), doc);
    }
  }

  lemma FourParts(t: string, p: nat, a: string, b: string, c: string, d: string, rest: string)
    requires At(t, p, a + (b + (c + (d + rest))))
    ensures var v := p + |a|;
            var e := v + |b|;
            var n := e + |c + d|;
            At(t, p, a) && At(t, v, b) && At(t, e, c + (d + rest)) && At(t, e, c + d) && At(t, n, rest) && n <= |t|
  {
    hide At;
    Parts(t, p, a, b + (c + (d + rest)));
    Parts(t, p + |a|, b, c + (d + rest));
    assert c + (d + rest) == (c + d) + rest;
    Parts(t, p + |a| + |b|, c + d, rest);
  }

  // Members with white space anywhere and at most one comma behind each, up to the closing
  // brace: the entries of the `skills` arrays in order, and the other values passed over.
  lemma {:induction false} LooseMembersRead(t: string, i: nat, ms: seq<LooseMember>, last: string)
    requires MembersOk(ms) && Blanks(last) && At(t, i, LooseMembersSpelled(ms, last))
    ensures i <= |t| && ReadMembers(t, i) == Accept(AllTaken(ms))
    decreases |ms|
  {
    hide At, LooseMembersSpelled, AllTaken, MembersOk, LooseMemberOk, Blanks, ReadMembers, BehindColon;
    hide PiecesOk, EachOk, CodesOf, SpelledString, ValueSpelled, Comma, Taken, ReadMember, ReadKey, Ends;
    Fits(t, i, LooseMembersSpelled(ms, last));
    LooseMembersHead(ms, last);
    if ms == [] {
      Parts(t, i, last, "}");
      CharAt(t, i + |last|, "}", 0);
      BlanksSkipped(t, i, last);
      SameMembers(t, i, i + |last|);
      BraceEnds(t, i + |last|);
    } else {
      var m, rest := ms[0], LooseMembersSpelled(ms[1..], last);
      LooseKeyRead(t, i, m.lead, m.key, m.beforeColon, BehindColon(m, rest));
      var k := i + |m.lead|;
      var p := k + |SpelledString(m.key)| + |m.beforeColon| + 1;
      BehindColonParts(m, rest);
      FourParts(t, p, m.afterColon, ValueSpelled(m), m.trail, Comma(m), rest);
      var v := p + |m.afterColon|;
      var e := v + |ValueSpelled(m)|;
      var n := e + |m.trail + Comma(m)|;
      LooseMembersRead(t, n, ms[1..], last);
      CommaOrNone(m);
      RestEnds(t, e, m.trail, Comma(m), ms[1..], last);
      ValueTaken(t, v, m, n);
      BlanksSkipped(t, p, m.afterColon);
      ValueStart(m);
      CharAt(t, v, ValueSpelled(m), 0);
      KeyThenMember(t, i, k, CodesOf(m.key), p, v);
    }
  }

  lemma CommaOrNone(m: LooseMember)
    ensures Comma(m) == "" || Comma(m) == ","
  {
  }

  lemma KeyThenMember(t: string, i: nat, k: nat, key: seq<int>, p: nat, v: nat)
    requires i <= |t| && Skip(t, i) == k < |t| && t[k] != '}' && p <= v < |t|
    requires ReadKey(t, k) == Done(key, p) && Skip(t, p) == Skip(t, v) && !IsSpace(t[v])
    ensures ReadMembers(t, i) == ReadMember(t, key, v)
  {
    hide ReadMember, ReadKey;
    assert Skip(t, v) == v;
  }

  // ---------- nothing else is read ----------

  lemma {:induction false} BlanksBefore(t: string, i: nat)
    requires i <= |t|
    ensures Blanks(t[i..Skip(t, i)])
    decreases |t| - i
  {
    if i < |t| && IsSpace(t[i]) {
      BlanksBefore(t, i + 1);
      assert t[i..Skip(t, i)] == [t[i]] + t[i + 1..Skip(t, i)];
    }
  }

  lemma BlanksJoined(t: string, s: nat, i: nat, j: nat)
    requires s <= i <= j <= |t| && Blanks(t[s..i]) && Blanks(t[i..j])
    ensures Blanks(t[s..j])
  {
    assert t[s..j] == t[s..i] + t[i..j];
  }

  lemma GapJoined(t: string, s: nat, i: nat, j: nat)
    requires s <= i <= j <= |t| && Gap(t[s..i]) && Gap(t[i..j])
    ensures Gap(t[s..j])
  {
    assert t[s..j] == t[s..i] + t[i..j];
  }

  // The gap from s to the next character that is neither white space nor read yet.
  lemma GapWritten(t: string, s: nat, i: nat)
    requires s <= i <= |t| && Gap(t[s..i])
    ensures Gap(t[s..Skip(t, i)])
    ensures Skip(t, i) < |t| && t[Skip(t, i)] == ',' ==> Gap(t[s..Skip(t, i) + 1])
  {
    var j := Skip(t, i);
    BlanksBefore(t, i);
    GapJoined(t, s, i, j);
    if j < |t| && t[j] == ',' {
      assert t[j..j + 1] == [t[j]];
      GapJoined(t, s, j, j + 1);
    }
  }

  lemma ItemBefore(item: LooseItem, items: seq<LooseItem>, last: string)
    requires Gap(item.gap) && DocOk(item.doc) && item.doc.Dict? && LooseOk(items)
    ensures LooseOk([item] + items)
    ensures LooseMeanings([item] + items) == [Meaning(item.doc)] + LooseMeanings(items)
    ensures LooseSpelled([item] + items, last) == item.gap + (Spelled(item.doc) + LooseSpelled(items, last))
  {
    hide Spelled, Meaning, DocOk, Gap;
    assert ([item] + items)[1..] == items;
  }

  lemma {:induction false} ArrayWritten(t: string, s: nat, i: nat) returns (items: seq<LooseItem>, last: string)
    requires s <= i <= |t| && Gap(t[s..i]) && ReadArray(t, i).Done?
    ensures LooseOk(items) && Gap(last) && LooseMeanings(items) == ReadArray(t, i).value
    ensures At(t, s, LooseSpelled(items, last)) && s + |LooseSpelled(items, last)| == ReadArray(t, i).end
    decreases |t| - i
  {
    hide At, ScanValue, Gap, Spelled, Meaning, DocOk, LooseMeanings, LooseSpelled, LooseOk;
    var j := Skip(t, i);
    GapWritten(t, s, i);
    Slice(t, s, j);
    if t[j] == ']' {
      items, last := [], t[s..j];
      NoItems();
      LooseHead([], last);
      OneChar(t, j, "]");
      Joined(t, s, last, "]");
    } else if t[j] == ',' {
      items, last := ArrayWritten(t, s, j + 1);
    } else {
      var doc := ValueWritten(t, j);
      DictIsObject(doc);
      var e := ScanValue(t, j).end;
      NoGap(t, e);
      var rest;
      rest, last := ArrayWritten(t, e, e);
      var item := LooseItem(t[s..j], doc);
      items := [item] + rest;
      ItemBefore(item, rest, last);
      Joined(t, j, Spelled(doc), LooseSpelled(rest, last));
      Joined(t, s, item.gap, Spelled(doc) + LooseSpelled(rest, last));
    }
  }

  lemma NoItems()
    ensures LooseOk([])
  {
  }

  lemma NoGap(t: string, e: nat)
    requires e <= |t|
    ensures Gap(t[e..e]) && Blanks(t[e..e])
  {
  }

  lemma StringValue(t: string, i: nat)
    requires i <= |t| && ScanValue(t, i).Done? && ScanValue(t, i).value.Str?
    ensures i < |t| && t[i] == '"' && ScanString(t, i + 1) == Done(ScanValue(t, i).value.codes, ScanValue(t, i).end)
  {
    hide ScanItems, ScanMembers, ScanString, SkipSpace;
  }

  // The key at j and its colon.
  lemma {:induction false} LooseKeyWritten(t: string, j: nat) returns (key: seq<Piece>, before: string)
    requires j <= |t| && ReadKey(t, j).Done?
    ensures PiecesOk(key) && EachOk(key) && Blanks(before) && CodesOf(key) == ReadKey(t, j).value
    ensures var s := SpelledString(key) + (before + ":");
            At(t, j, s) && j + |s| == ReadKey(t, j).end
  {
    hide At, ScanValue, ScanString, SpelledString, PiecesOk, CodesOf, Blanks;
    StringValue(t, j);
    key := QuotedWritten(t, j);
    var e := ScanValue(t, j).end;
    var k := Skip(t, e);
    BlanksBefore(t, e);
    before := t[e..k];
    Slice(t, e, k);
    OneChar(t, k, ":");
    Joined(t, e, before, ":");
    Joined(t, j, SpelledString(key), before + ":");
  }

  // The value at p, and what the members from `next` on add to it.
  lemma {:induction false} LooseValueWritten(t: string, key: seq<Piece>, p: nat) returns (value: LooseValue, e: nat)
    requires p <= |t| && PiecesOk(key) && ReadMember(t, CodesOf(key), p).Accept?
    ensures value.Other? ==> DocOk(value.doc) && (IsSkills(key) ==> !value.doc.List?)
    ensures value.Entries? ==> IsSkills(key) && LooseOk(value.items) && Gap(value.last)
    ensures p < e <= |t| && At(t, p, SpelledValue(value)) && p + |SpelledValue(value)| == e
    ensures var rest := if IsSkills(key) && value.Other? then ReadMembers(t, e) else AfterValue(t, e);
            rest.Accept? && ReadMember(t, CodesOf(key), p) == Accept(EntriesOf(value) + rest.entries)
  {
    hide At, ScanValue, ReadArray, ReadMembers, AfterValue, LooseSpelled, LooseMeanings, LooseOk, Gap, DocOk,
         Spelled, Meaning, CodesOf, PiecesOk, Blanks;
    PiecesEach(key);
    if CodesOf(key) == SKILLS && t[p] == '[' {
      NoGap(t, p + 1);
      var items, last := ArrayWritten(t, p + 1, p + 1);
      e := ReadArray(t, p + 1).end;
      value := Entries(items, last);
      OneChar(t, p, "[");
      Joined(t, p, "[", LooseSpelled(items, last));
    } else {
      var doc := ValueWritten(t, p);
      e := ScanValue(t, p).end;
      value := Other(doc);
      DocNotBlank(doc);
      CharAt(t, p, Spelled(doc), 0);
    }
  }

  // Where the next member starts behind a value that ends at e, and what stands between.
  lemma {:induction false} BehindWritten(t: string, e: nat, dropped: bool) returns (trail: string, comma: bool, s: nat, n: nat)
    requires e <= |t| && (if dropped then ReadMembers(t, e) else AfterValue(t, e)).Accept?
    ensures Blanks(trail) && (dropped ==> !comma)
    ensures var between := trail + (if comma then "," else ""); At(t, e, between) && e + |between| == s
    ensures e <= s <= n <= |t| && Blanks(t[s..n])
    ensures ReadMembers(t, n) == if dropped then ReadMembers(t, e) else AfterValue(t, e)
    ensures comma ==> e < n
  {
    hide At, ReadMembers, Blanks;
    var j := Skip(t, e);
    BlanksBefore(t, e);
    NoGap(t, e);
    if !dropped && j < |t| && t[j] == ',' {
      trail, comma, s, n := t[e..j], true, j + 1, j + 1;
      NoGap(t, j + 1);
      Slice(t, e, j);
      OneChar(t, j, ",");
      Joined(t, e, trail, ",");
    } else {
      trail, comma, s := "", false, e;
      Slice(t, e, e);
      assert "" + "" == "";
      if dropped {
        n := e;
      } else {
        n := j;
        if j < |t| && t[j] == '}' {
          BraceEnds(t, j);
        }
      }
    }
  }

  lemma MemberBefore(m: LooseMember, ms: seq<LooseMember>, last: string)
    requires LooseMemberOk(m) && MembersOk(ms)
    ensures MembersOk([m] + ms) && AllTaken([m] + ms) == Taken(m) + AllTaken(ms)
    ensures EachOk(m.key)
    ensures LooseMembersSpelled([m] + ms, last) ==
              m.lead + (SpelledString(m.key) + (m.beforeColon + (":" + BehindColon(m, LooseMembersSpelled(ms, last)))))
  {
    hide LooseMemberOk, BehindColon;
    assert ([m] + ms)[1..] == ms;
    assert MembersOk([m] + ms);
    hide MembersOk;
    LooseMembersHead([m] + ms, last);
  }

  lemma NoMembers()
    ensures MembersOk([])
  {
  }

  // Nine parts in a row, the third to the last grouped as the grammar has them.
  lemma MemberJoined(t: string, s: nat, lead: string, key: string, before: string, after: string, value: string, trail: string,
                     comma: string, rest: string)
    requires At(t, s, lead)
    requires var k := s + |lead|;
             var p := k + |key + (before + ":")|;
             var v := p + |after|;
             var e := v + |value|;
             && At(t, k, key + (before + ":")) && At(t, p, after) && At(t, v, value) && At(t, e, trail + comma)
             && At(t, e + |trail + comma|, rest)
    ensures var whole := lead + (key + (before + (":" + (after + (value + (trail + (comma + rest)))))));
            At(t, s, whole) && |whole| == |lead| + |key + (before + ":")| + |after| + |value| + |trail + comma| + |rest|
  {
    hide At;
    var k := s + |lead|;
    var p := k + |key + (before + ":")|;
    FourJoined(t, p, after, value, trail + comma, rest);
    assert (trail + comma) + rest == trail + (comma + rest);
    var tail := after + (value + (trail + (comma + rest)));
    Joined(t, k, key + (before + ":"), tail);
    assert (key + (before + ":")) + tail == key + (before + (":" + tail));
    Joined(t, s, lead, key + (before + (":" + tail)));
  }

  lemma MemberSteps(t: string, i: nat)
    requires i <= |t| && ReadMembers(t, i).Accept?
    ensures var j := Skip(t, i);
            j < |t| && (if t[j] == '}' then ReadMembers(t, i) == Accept([])
                        else && ReadKey(t, j).Done?
                             && ReadMembers(t, i) == ReadMember(t, ReadKey(t, j).value, Skip(t, ReadKey(t, j).end)))
  {
    hide ReadMember, ScanValue;
  }

  lemma {:induction false} LooseMembersWritten(t: string, s: nat, i: nat) returns (ms: seq<LooseMember>, last: string)
    requires s <= i <= |t| && Blanks(t[s..i]) && ReadMembers(t, i).Accept?
    ensures MembersOk(ms) && Blanks(last) && AllTaken(ms) == ReadMembers(t, i).entries
    ensures At(t, s, LooseMembersSpelled(ms, last))
    decreases |t| - i
  {
    hide At, ReadMembers, ReadMember, ReadKey, AfterValue, LooseMembersSpelled, AllTaken, MembersOk, Blanks,
         BehindColon;
    hide PiecesOk, EachOk, CodesOf, SpelledString, SpelledValue, LooseOk, Gap, DocOk, LooseMeanings;
    var j := Skip(t, i);
    BlanksBefore(t, i);
    BlanksJoined(t, s, i, j);
    Slice(t, s, j);
    MemberSteps(t, i);
    NoMembers();
    if t[j] == '}' {
      ms, last := [], t[s..j];
      LooseMembersHead([], last);
      OneChar(t, j, "}");
      Joined(t, s, last, "}");
    } else {
      var key, before := LooseKeyWritten(t, j);
      var p := ReadKey(t, j).end;
      var v := Skip(t, p);
      BlanksBefore(t, p);
      Slice(t, p, v);
      var value, e := LooseValueWritten(t, key, v);
      var trail, comma, next, n := BehindWritten(t, e, IsSkills(key) && value.Other?);
      var m := LooseMember(t[s..j], key, before, t[p..v], value, trail, comma);
      assert LooseMemberOk(m);
      var rest;
      rest, last := LooseMembersWritten(t, next, n);
      ms := [m] + rest;
      MemberBefore(m, rest, last);
      BehindColonParts(m, LooseMembersSpelled(rest, last));
      MemberJoined(t, s, m.lead, SpelledString(key), before, m.afterColon, ValueSpelled(m), trail, Comma(m),
                   LooseMembersSpelled(rest, last));
    }
  }

  // ---------- the grammar of an index ----------

  datatype Index = ListIndex(items: seq<LooseItem>, last: string) | DictIndex(members: seq<LooseMember>, last: string)

  predicate IndexOk(x: Index) {
    match x
    case ListIndex(items, last) => LooseOk(items) && Gap(last)
    case DictIndex(members, last) => MembersOk(members) && Blanks(last)
  }

  function SpelledIndex(x: Index): string
    requires IndexOk(x)
  {
    match x
    case ListIndex(items, last) => "[" + LooseSpelled(items, last)
    case DictIndex(members, last) => "{" + LooseMembersSpelled(members, last)
  }

  function IndexEntries(x: Index): seq<Value>
    requires IndexOk(x)
  {
    match x
    case ListIndex(items, _) => LooseMeanings(items)
    case DictIndex(members, _) => AllTaken(members)
  }

  // The text is white space, an index with these entries, and anything.
  ghost predicate Holds(t: string, es: seq<Value>) {
    exists b: nat, x: Index :: b <= |t| && Blanks(t[..b]) && IndexOk(x) && At(t, b, SpelledIndex(x)) && IndexEntries(x) == es
  }

  lemma {:induction false} IndexRead(t: string, b: nat, x: Index)
    requires b <= |t| && Blanks(t[..b]) && IndexOk(x) && At(t, b, SpelledIndex(x))
    ensures ReadIndex(t) == Accept(IndexEntries(x))
  {
    hide At, ReadArray, ReadMembers, LooseSpelled, LooseMeanings, LooseOk, LooseMembersSpelled, AllTaken,
         MembersOk, Gap, Blanks;
    Slice(t, 0, b);
    assert t[0..b] == t[..b];
    BlanksSkipped(t, 0, t[..b]);
    match x {
      case ListIndex(items, last) =>
        Parts(t, b, "[", LooseSpelled(items, last));
        CharAt(t, b, "[", 0);
        LooseArrayRead(t, b + 1, items, last);
      case DictIndex(members, last) =>
        Parts(t, b, "{", LooseMembersSpelled(members, last));
        CharAt(t, b, "{", 0);
        LooseMembersRead(t, b + 1, members, last);
    }
  }

  lemma {:induction false} IndexWritten(t: string) returns (b: nat, x: Index)
    requires ReadIndex(t).Accept?
    ensures b <= |t| && Blanks(t[..b]) && IndexOk(x) && At(t, b, SpelledIndex(x))
    ensures IndexEntries(x) == ReadIndex(t).entries
  {
    hide At, ReadArray, ReadMembers, LooseSpelled, LooseMeanings, LooseOk, LooseMembersSpelled, AllTaken,
         MembersOk, Gap, Blanks;
    b := Skip(t, 0);
    BlanksBefore(t, 0);
    assert t[0..b] == t[..b];
    NoGap(t, b + 1);
    if t[b] == '[' {
      var items, last := ArrayWritten(t, b + 1, b + 1);
      x := ListIndex(items, last);
      OneChar(t, b, "[");
      Joined(t, b, "[", LooseSpelled(items, last));
    } else {
      var members, last := LooseMembersWritten(t, b + 1, b + 1);
      x := DictIndex(members, last);
      OneChar(t, b, "{");
      Joined(t, b, "{", LooseMembersSpelled(members, last));
    }
  }

  // The reader gives exactly the entries of the index that its text holds, and rejects the
  // text that holds none.
  lemma AcceptedIffHolds(t: string, es: seq<Value>)
    ensures ReadIndex(t) == Accept(es) <==> Holds(t, es)
  {
    hide ReadIndex, Blanks, IndexOk, At, SpelledIndex, IndexEntries;
    if ReadIndex(t) == Accept(es) {
      var b, x := IndexWritten(t);
    }
    forall b: nat, x: Index | b <= |t| && Blanks(t[..b]) && IndexOk(x) && At(t, b, SpelledIndex(x)) && IndexEntries(x) == es
      ensures ReadIndex(t) == Accept(es)
    {
      IndexRead(t, b, x);
    }
  }

  // A file gives exactly the entries that its text holds, unless the chunks make the reader
  // miss a number or a character; one chunk does not.
  method ReadHeld(file: seq<string>) returns (out: Outcome)
    requires forall i :: 0 <= i < |file| ==> file[i] != ""
    ensures var t, cuts := Flatten(file), Boundaries(0, file);
            forall es :: out == Accept(es) <==> Holds(t, es) && !(NumberReadShort(t, cuts) || CharacterMissed(t, cuts))
    ensures |file| == 1 ==> forall es :: out == Accept(es) <==> Holds(file[0], es)
  {
    hide ReadIndex, Holds, NumberReadShort, CharacterMissed, DirectNumberCut, HidesBracket, Boundaries;
    var t := Flatten(file);
    if |file| == 1 {
      assert file == [file[0]];
      OneChunkUncut(file[0]);
      OneChunkText(file[0]);
    }
    hide Flatten;
    out := ReadFile(file);
    forall es ensures ReadIndex(t) == Accept(es) <==> Holds(t, es) {
      AcceptedIffHolds(t, es);
    }
  }
}
