/**
 Terminal decisions on events. Requests to decide, start and complete interleave between
 their reads and their writes; a unique key on the event makes the first decision final.
 */
module Decisions {
  import opened Prelude

  type EventId = nat
  type Time = int
  type MessageId = nat
  type ChannelId = nat

  datatype Choice = Approve | Reject

  datatype Row = Row(decision: Choice, message: Option<MessageId>, channel: Option<ChannelId>,
                     startedAt: Option<Time>, completedAt: Option<Time>)

  datatype Mark = Started | Completed

  datatype Request =
    | Deciding(event: EventId, decision: Choice, message: Option<MessageId>, channel: Option<ChannelId>)
    | Conflicted(event: EventId, decision: Choice, message: Option<MessageId>)
    | Marking(event: EventId, mark: Mark)
    // The row was read without this time on it.
    | Unmarked(event: EventId, mark: Mark)
    | Replied(event: EventId, decision: Choice)
    | Failed(event: EventId)

  datatype State = State(rows: map<EventId, Row>, requests: seq<Request>)

  datatype Action =
    | Begin(request: Request)
    | Insert(i: nat)
    | Reread(i: nat)
    | Read(i: nat)
    | Write(i: nat, now: Time)
    | Abandon(i: nat)

  // A decision without a message id never conflicts with one that has it.
  predicate Compatible(message: Option<MessageId>, row: Row) {
    message.None? || row.message.None? || row.message == message
  }

  function Has(row: Row, mark: Mark): bool {
    if mark == Started then row.startedAt.Some? else row.completedAt.Some?
  }

  function Marked(row: Row, mark: Mark, now: Time): Row {
    if mark == Started then row.(startedAt := Some(now)) else row.(completedAt := Some(now))
  }

  predicate Enabled(s: State, act: Action) {
    match act
    case Begin(request) => request.Deciding? || request.Marking?
    case Insert(i) => i < |s.requests| && s.requests[i].Deciding?
    case Reread(i) => i < |s.requests| && s.requests[i].Conflicted?
    case Read(i) => i < |s.requests| && s.requests[i].Marking?
    case Write(i, _) => i < |s.requests| && s.requests[i].Unmarked?
    case Abandon(i) => i < |s.requests| && !s.requests[i].Replied?
  }

  // The state of a request that inserts, and of one that reads its row.
  function Inserted(rows: map<EventId, Row>, r: Request): (map<EventId, Row>, Request)
    requires r.Deciding?
  {
    if r.event in rows then (rows, Conflicted(r.event, r.decision, r.message))
    else (rows[r.event := Row(r.decision, r.message, r.channel, None, None)], Replied(r.event, r.decision))
  }

  function Reconsidered(rows: map<EventId, Row>, r: Request): Request
    requires r.Conflicted?
  {
    if r.event in rows && rows[r.event].decision == r.decision && Compatible(r.message, rows[r.event])
    then Replied(r.event, rows[r.event].decision) else Failed(r.event)
  }

  function Looked(rows: map<EventId, Row>, r: Request): Request
    requires r.Marking?
  {
    if r.event !in rows || rows[r.event].decision != Approve then Failed(r.event)
    else if Has(rows[r.event], r.mark) then Replied(r.event, rows[r.event].decision)
    else Unmarked(r.event, r.mark)
  }

  function Step(s: State, act: Action): State
    requires Enabled(s, act)
  {
    match act
    case Begin(request) => s.(requests := s.requests + [request])
    case Insert(i) =>
      var (rows, request) := Inserted(s.rows, s.requests[i]);
      State(rows, s.requests[i := request])
    case Reread(i) => s.(requests := s.requests[i := Reconsidered(s.rows, s.requests[i])])
    case Read(i) => s.(requests := s.requests[i := Looked(s.rows, s.requests[i])])
    case Write(i, now) =>
      var r := s.requests[i];
      if r.event in s.rows then
        State(s.rows[r.event := Marked(s.rows[r.event], r.mark, now)],
              s.requests[i := Replied(r.event, s.rows[r.event].decision)])
      else s.(requests := s.requests[i := Failed(r.event)])
    case Abandon(i) => s.(requests := s.requests[i := Failed(s.requests[i].event)])
  }

  // ---------- the invariant ----------

  ghost predicate RequestOk(rows: map<EventId, Row>, r: Request) {
    match r
    case Conflicted(event, _, _) => event in rows
    case Unmarked(event, _) => event in rows && rows[event].decision == Approve
    case Replied(event, decision) => event in rows && rows[event].decision == decision
    case Deciding(_, _, _, _) => true
    case Marking(_, _) => true
    case Failed(_) => true
  }

  ghost predicate Inv(s: State) {
    && (forall e :: e in s.rows && (s.rows[e].startedAt.Some? || s.rows[e].completedAt.Some?) ==> s.rows[e].decision == Approve)
    && (forall i :: 0 <= i < |s.requests| ==> RequestOk(s.rows, s.requests[i]))
  }

  // What is recorded about an event stays: the decision and its ids as they are, the times
  // never null again.
  ghost predicate Keeps(before: map<EventId, Row>, after: map<EventId, Row>) {
    forall e :: e in before ==>
      && e in after
      && after[e].decision == before[e].decision
      && after[e].message == before[e].message && after[e].channel == before[e].channel
      && (before[e].startedAt.Some? ==> after[e].startedAt.Some?)
      && (before[e].completedAt.Some? ==> after[e].completedAt.Some?)
  }

  lemma {:induction false} StepKeeps(s: State, act: Action)
    requires Inv(s) && Enabled(s, act)
    ensures Inv(Step(s, act)) && Keeps(s.rows, Step(s, act).rows)
  {
    var s' := Step(s, act);
    var own := if act.Begin? then |s.requests| else act.i;
    if !act.Begin? {
      assert RequestOk(s.rows, s.requests[own]);
    }
    assert Keeps(s.rows, s'.rows);
    forall j | 0 <= j < |s'.requests|
      ensures RequestOk(s'.rows, s'.requests[j])
    {
      if j != own {
        assert s'.requests[j] == s.requests[j] && RequestOk(s.rows, s.requests[j]);
      }
    }
  }

  ghost predicate Run(s: State, acts: seq<Action>, last: State)
    decreases |acts|
  {
    if acts == [] then s == last
    else Enabled(s, acts[0]) && Run(Step(s, acts[0]), acts[1..], last)
  }

  // Over every interleaving: what was once recorded stays, only approvals are started or
  // completed, and the replies about an event all carry the one decision recorded for it.
  lemma {:induction false} DecisionsAreFinal(s: State, acts: seq<Action>, last: State)
    requires Inv(s) && Run(s, acts, last)
    ensures Inv(last) && Keeps(s.rows, last.rows)
    ensures forall i, j :: 0 <= i < |last.requests| && 0 <= j < |last.requests|
              && last.requests[i].Replied? && last.requests[j].Replied? && last.requests[i].event == last.requests[j].event
              ==> last.requests[i].decision == last.requests[j].decision
    decreases |acts|
  {
    hide Step, Enabled;
    if acts == [] {
      forall i | 0 <= i < |last.requests| && last.requests[i].Replied?
        ensures last.requests[i].event in last.rows && last.rows[last.requests[i].event].decision == last.requests[i].decision
      {
        assert RequestOk(last.rows, last.requests[i]);
      }
    } else {
      StepKeeps(s, acts[0]);
      DecisionsAreFinal(Step(s, acts[0]), acts[1..], last);
      KeepsChain(s.rows, Step(s, acts[0]).rows, last.rows);
    }
  }

  lemma KeepsChain(a: map<EventId, Row>, b: map<EventId, Row>, c: map<EventId, Row>)
    requires Keeps(a, b) && Keeps(b, c)
    ensures Keeps(a, c)
  {
  }

  lemma EmptyIsOk()
    ensures Inv(State(map[], []))
  {
  }

  // A recorded time changes again exactly when a request that read the row before it was
  // recorded writes afterwards; a request that reads it later leaves it alone.
  lemma TimeMovesIff(s: State, act: Action, e: EventId)
    requires Inv(s) && Enabled(s, act) && e in s.rows && s.rows[e].startedAt.Some?
    ensures Step(s, act).rows[e].startedAt != s.rows[e].startedAt
            <==> act.Write? && s.requests[act.i] == Unmarked(e, Started) && s.rows[e].startedAt != Some(act.now)
  {
    StepKeeps(s, act);
  }

  // Two starts that read before either writes: the second moves the time of the first.
  lemma {:induction false} RacingStartsMoveTheTime(e: EventId, first: Time, second: Time) returns (acts: seq<Action>,
                                                   last: State)
    requires first != second
    ensures Run(State(map[e := Row(Approve, None, None, None, None)], []), acts, last)
    ensures e in last.rows && last.rows[e].startedAt == Some(second)
    ensures last.requests == [Replied(e, Approve), Replied(e, Approve)]
  {
    var s0 := State(map[e := Row(Approve, None, None, None, None)], []);
    acts := [Begin(Marking(e, Started)), Begin(Marking(e, Started)), Read(0), Read(1), Write(0, first), Write(1, second)];
    var s1 := Step(s0, acts[0]);
    var s2 := Step(s1, acts[1]);
    var s3 := Step(s2, acts[2]);
    var s4 := Step(s3, acts[3]);
    var s5 := Step(s4, acts[4]);
    last := Step(s5, acts[5]);
    RunStep(s5, acts[5..], last);
    RunStep(s4, acts[4..], last);
    RunStep(s3, acts[3..], last);
    RunStep(s2, acts[2..], last);
    RunStep(s1, acts[1..], last);
    RunStep(s0, acts, last);
  }

  lemma RunStep(s: State, acts: seq<Action>, last: State)
    requires acts != [] && Enabled(s, acts[0])
    requires if |acts| == 1 then last == Step(s, acts[0]) else Run(Step(s, acts[0]), acts[1..], last)
    ensures Run(s, acts, last)
  {
    hide Step, Enabled;
    if |acts| == 1 {
      assert acts[1..] == [];
    }
  }
}
