/** What the requests about an event get: the recorded decision is one that was asked for. */
module DecisionOutcomes {
  import opened Prelude
  import opened Decisions

  // The requests that began, in order: the n-th of them is the n-th request of the state.
  function Asked(acts: seq<Action>): seq<Request> {
    if acts == [] then []
    else (if acts[0].Begin? then [acts[0].request] else []) + Asked(acts[1..])
  }

  function TimeOf(row: Row, mark: Mark): Option<Time> {
    match mark
    case Started => row.startedAt
    case Completed => row.completedAt
  }

  // A reply to a decide request carries the decision it asked for, which is the recorded one;
  // its message id and the recorded one, if both are there, are the same. A reply to a start
  // or a completion finds the event approved and its time recorded.
  ghost predicate Follows(rows: map<EventId, Row>, asked: Request, now: Request) {
    match asked
    case Deciding(e, decision, message, _) =>
      || now == asked || now == Conflicted(e, decision, message) || now == Failed(e)
      || (&& now == Replied(e, decision) && e in rows && rows[e].decision == decision
          && (message.Some? && rows[e].message.Some? ==> rows[e].message == message))
    case Marking(e, mark) =>
      || now == asked || now == Unmarked(e, mark) || now == Failed(e)
      || (now == Replied(e, Approve) && e in rows && rows[e].decision == Approve && TimeOf(rows[e], mark).Some?)
    case Conflicted(_, _, _) => false
    case Unmarked(_, _) => false
    case Replied(_, _) => false
    case Failed(_) => false
  }

  ghost predicate WasAsked(asked: seq<Request>, e: EventId, row: Row) {
    Deciding(e, row.decision, row.message, row.channel) in asked
  }

  ghost predicate AllFollow(asked: seq<Request>, s: State) {
    && |asked| == |s.requests|
    && (forall n :: 0 <= n < |asked| ==> Follows(s.rows, asked[n], s.requests[n]))
    && (forall e :: e in s.rows ==> WasAsked(asked, e, s.rows[e]))
  }

  // ---------- single steps ----------

  // The first decision to arrive is recorded with its ids and answered; a later one changes
  // nothing and has to compare.
  lemma InsertOutcome(s: State, i: nat)
    requires Enabled(s, Insert(i))
    ensures var r, next := s.requests[i], Step(s, Insert(i));
            if r.event in s.rows
            then next == s.(requests := s.requests[i := Conflicted(r.event, r.decision, r.message)])
            else next == State(s.rows[r.event := Row(r.decision, r.message, r.channel, None, None)],
                               s.requests[i := Replied(r.event, r.decision)])
  {
  }

  // It fails exactly when the recorded decision is another, or both have message ids and
  // those differ; else it is answered as it asked.
  lemma RereadOutcome(s: State, i: nat)
    requires Inv(s) && Enabled(s, Reread(i))
    ensures var r, next := s.requests[i], Step(s, Reread(i));
            && r.event in s.rows && next.rows == s.rows
            && next == s.(requests := s.requests[i := next.requests[i]])
            && var row := s.rows[r.event];
               if row.decision != r.decision || (r.message.Some? && row.message.Some? && row.message != r.message)
               then next.requests[i] == Failed(r.event) else next.requests[i] == Replied(r.event, r.decision)
  {
    assert RequestOk(s.rows, s.requests[i]);
  }

  // A start or completion fails unless the event is approved, is answered when its time is
  // there, and else goes on to write it.
  lemma ReadOutcome(s: State, i: nat)
    requires Enabled(s, Read(i))
    ensures var r, next := s.requests[i], Step(s, Read(i));
            && next == s.(requests := s.requests[i := next.requests[i]])
            && if !(r.event in s.rows && s.rows[r.event].decision == Approve) then next.requests[i] == Failed(r.event)
               else if TimeOf(s.rows[r.event], r.mark).Some? then next.requests[i] == Replied(r.event, Approve)
               else next.requests[i] == Unmarked(r.event, r.mark)
  {
  }

  // Of what is recorded about an event, a step changes nothing but the one time that a write
  // for it sets, and that to the writer's clock.
  lemma {:induction false} RecordedAfter(s: State, act: Action, e: EventId, mark: Mark)
    requires Inv(s) && Enabled(s, act) && e in s.rows
    ensures var next := Step(s, act);
            && e in next.rows
            && (next.rows[e].decision, next.rows[e].message, next.rows[e].channel) ==
                 (s.rows[e].decision, s.rows[e].message, s.rows[e].channel)
            && TimeOf(next.rows[e], mark) ==
                 if act.Write? && s.requests[act.i] == Unmarked(e, mark) then Some(act.now) else TimeOf(s.rows[e], mark)
  {
    StepKeeps(s, act);
  }

  // ---------- runs ----------

  lemma FollowsOn(rows: map<EventId, Row>, after: map<EventId, Row>, asked: Request, now: Request)
    requires Follows(rows, asked, now) && Keeps(rows, after)
    ensures Follows(after, asked, now)
  {
  }

  lemma AskedStays(asked: seq<Request>, more: seq<Request>, e: EventId, row: Row)
    requires WasAsked(asked, e, row)
    ensures WasAsked(asked + more, e, row)
  {
  }

  // The request that takes the step.
  lemma {:induction false} OwnFollows(s: State, act: Action, asked: Request)
    requires Inv(s) && Enabled(s, act) && !act.Begin?
    requires Follows(s.rows, asked, s.requests[act.i])
    ensures Follows(Step(s, act).rows, asked, Step(s, act).requests[act.i])
  {
    assert RequestOk(s.rows, s.requests[act.i]);
  }

  lemma {:induction false} RowsWereAsked(s: State, act: Action, asked: seq<Request>, e: EventId)
    requires Inv(s) && Enabled(s, act) && AllFollow(asked, s) && e in Step(s, act).rows
    ensures WasAsked(asked, e, Step(s, act).rows[e])
  {
    if e in s.rows {
      RecordedAfter(s, act, e, Started);
      assert WasAsked(asked, e, s.rows[e]);
    } else {
      assert Follows(s.rows, asked[act.i], s.requests[act.i]);
      assert asked[act.i] == s.requests[act.i];
    }
  }

  lemma {:induction false} StepFollows(s: State, act: Action, asked: seq<Request>)
    requires Inv(s) && Enabled(s, act) && AllFollow(asked, s)
    ensures AllFollow(asked + Asked([act]), Step(s, act))
  {
    var more := asked + Asked([act]);
    assert Asked([act]) == (if act.Begin? then [act.request] else []) + Asked([]);
    var next := Step(s, act);
    StepKeeps(s, act);
    assert |more| == |next.requests|;
    forall e | e in next.rows
      ensures WasAsked(more, e, next.rows[e])
    {
      RowsWereAsked(s, act, asked, e);
      AskedStays(asked, Asked([act]), e, next.rows[e]);
    }
    forall n | 0 <= n < |more|
      ensures Follows(next.rows, more[n], next.requests[n])
    {
      if n < |asked| {
        assert Follows(s.rows, asked[n], s.requests[n]);
        if !act.Begin? && act.i == n {
          OwnFollows(s, act, asked[n]);
        } else {
          FollowsOn(s.rows, next.rows, asked[n], s.requests[n]);
        }
      }
    }
  }

  lemma AskedSplit(asked: seq<Request>, acts: seq<Action>)
    requires acts != []
    ensures (asked + Asked([acts[0]])) + Asked(acts[1..]) == asked + Asked(acts)
  {
    var first := if acts[0].Begin? then [acts[0].request] else [];
    assert Asked([acts[0]]) == first + Asked([]) == first;
    assert (asked + first) + Asked(acts[1..]) == asked + (first + Asked(acts[1..]));
  }

  lemma {:induction false} RunFollows(s: State, acts: seq<Action>, last: State, asked: seq<Request>)
    requires Inv(s) && AllFollow(asked, s) && Run(s, acts, last)
    ensures AllFollow(asked + Asked(acts), last)
    decreases |acts|
  {
    hide Step, Enabled, AllFollow, Inv, Asked, Keeps;
    if acts == [] {
      NothingAsked(asked);
    } else {
      StepKeeps(s, acts[0]);
      StepFollows(s, acts[0], asked);
      RunFollows(Step(s, acts[0]), acts[1..], last, asked + Asked([acts[0]]));
      AskedSplit(asked, acts);
    }
  }

  lemma NothingAsked(asked: seq<Request>)
    ensures asked + Asked([]) == asked
  {
  }

  // Over every run from the empty table: each recorded decision, with its ids, is that of a
  // decide request that began; and each request that is answered got what it asked for.
  lemma {:induction false} EveryAnswerWasAsked(acts: seq<Action>, last: State)
    requires Run(State(map[], []), acts, last)
    ensures forall e :: e in last.rows ==> WasAsked(Asked(acts), e, last.rows[e])
    ensures |last.requests| == |Asked(acts)|
    ensures forall n :: 0 <= n < |last.requests| ==> Follows(last.rows, Asked(acts)[n], last.requests[n])
  {
    hide Run, Follows, WasAsked;
    EmptyIsOk();
    RunFollows(State(map[], []), acts, last, []);
    assert [] + Asked(acts) == Asked(acts);
  }

  // With nothing racing, the first start or completion of an approved event records its own
  // clock reading and nothing else.
  lemma {:induction false} LoneMarkIsRecorded(s: State, e: EventId, mark: Mark, now: Time) returns (acts: seq<Action>, last: State)
    requires Inv(s) && e in s.rows && s.rows[e].decision == Approve && TimeOf(s.rows[e], mark).None?
    ensures acts == [Begin(Marking(e, mark)), Read(|s.requests|), Write(|s.requests|, now)] && Run(s, acts, last)
    ensures last.requests == s.requests + [Replied(e, Approve)]
    ensures e in last.rows && last.rows == s.rows[e := last.rows[e]] && TimeOf(last.rows[e], mark) == Some(now)
    ensures last.rows[e] == s.rows[e].(startedAt := last.rows[e].startedAt, completedAt := last.rows[e].completedAt)
    ensures forall other :: other != mark ==> TimeOf(last.rows[e], other) == TimeOf(s.rows[e], other)
  {
    var i := |s.requests|;
    acts := [Begin(Marking(e, mark)), Read(i), Write(i, now)];
    var one := Step(s, acts[0]);
    var two := Step(one, acts[1]);
    last := Step(two, acts[2]);
    RunStep(two, acts[2..], last);
    RunStep(one, acts[1..], last);
    RunStep(s, acts, last);
  }

  // And a later one is answered without a change.
  lemma {:induction false} LaterMarkChangesNothing(s: State, e: EventId, mark: Mark) returns (acts: seq<Action>, last: State)
    requires Inv(s) && e in s.rows && s.rows[e].decision == Approve && TimeOf(s.rows[e], mark).Some?
    ensures acts == [Begin(Marking(e, mark)), Read(|s.requests|)] && Run(s, acts, last)
    ensures last == State(s.rows, s.requests + [Replied(e, Approve)])
  {
    acts := [Begin(Marking(e, mark)), Read(|s.requests|)];
    var one := Step(s, acts[0]);
    last := Step(one, acts[1]);
    RunStep(one, acts[1..], last);
    RunStep(s, acts, last);
  }
}
