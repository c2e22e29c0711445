/**
 Polling event streams: each poll reads the events at or after a watermark and skips the
 ids still in a bounded memory of what was sent. The task stream and the comment feed run
 the same loop.
 */
module EventStream {
  import opened Dedup

  type EventId = nat
  type Time = int

  datatype Event = Event(id: EventId, at: Time)

  const SSE_SEEN_MAX: nat := 2000

  // ---------- what has been sent determines the stream's state ----------

  function Ids(events: seq<Event>): seq<EventId> {
    seq(|events|, i requires 0 <= i < |events| => events[i].id)
  }

  // The remembered ids: those of the last `max` events sent.
  function Remembered(max: nat, sent: seq<Event>): seq<EventId> {
    if |sent| <= max then Ids(sent) else Ids(sent[|sent| - max..])
  }

  function Watermark(since: Time, sent: seq<Event>): Time {
    if sent == [] then since
    else
      var before := Watermark(since, sent[..|sent| - 1]);
      if sent[|sent| - 1].at > before then sent[|sent| - 1].at else before
  }

  // What a poll sends for the rows it reads.
  function Sends(max: nat, sent: seq<Event>, rows: seq<Event>): seq<Event>
    decreases |rows|
  {
    if rows == [] then []
    else if rows[0].id in Remembered(max, sent) then Sends(max, sent, rows[1..])
    else [rows[0]] + Sends(max, sent + [rows[0]], rows[1..])
  }

  class Stream {
    const max: nat
    const since: Time
    var lastSeen: Time
    var seenIds: set<EventId>
    var seenQueue: seq<EventId>
    ghost var sent: seq<Event>

    constructor (max: nat, since: Time)
      requires max > 0
      ensures Valid() && sent == [] && this.max == max && this.since == since
    {
      this.max, this.since, lastSeen := max, since, since;
      seenIds, seenQueue, sent := {}, [], [];
    }

    ghost predicate Valid()
      reads this
    {
      && max > 0 && lastSeen == Watermark(since, sent)
      && seenQueue == Remembered(max, sent) && Distinct(seenQueue) && seenIds == SetOf(seenQueue)
    }

    // One poll over the rows read at or after the watermark.
    method Poll(rows: seq<Event>) returns (out: seq<Event>)
      requires Valid()
      modifies this
      ensures Valid() && out == Sends(max, old(sent), rows) && sent == old(sent) + out
    {
      hide Sends, Watermark, Remembered, Distinct, SetOf;
      out := [];
      SendsStep(max, sent, rows);
      for i := 0 to |rows|
        invariant Valid() && sent == old(sent) + out
        invariant Sends(max, old(sent), rows) == out + Sends(max, sent, rows[i..])
      {
        SendsStep(max, sent, rows[i..]);
        assert rows[i..][1..] == rows[i + 1..];
        var isNew := Remember(rows[i]);
        if isNew {
          out := out + [rows[i]];
        }
      }
      SendsStep(max, sent, rows[|rows|..]);
    }

    // Takes note of an event, unless its id is still in memory.
    method Remember(event: Event) returns (isNew: bool)
      requires Valid()
      modifies this
      ensures Valid() && isNew == (event.id !in Remembered(max, old(sent)))
      ensures sent == if isNew then old(sent) + [event] else old(sent)
    {
      hide Watermark, Remembered, Distinct, SetOf;
      InSetOf(seenQueue, event.id);
      if event.id in seenIds {
        return false;
      }
      RememberedNext(max, sent, event);
      QueueGrows(seenQueue, event.id);
      seenIds := seenIds + {event.id};
      seenQueue := seenQueue + [event.id];
      if |seenQueue| > max {
        QueueShrinks(seenQueue);
        var oldest := seenQueue[0];
        seenQueue := seenQueue[1..];
        seenIds := seenIds - {oldest};
      }
      lastSeen := if event.at > lastSeen then event.at else lastSeen;
      WatermarkNext(since, sent, event);
      sent := sent + [event];
      return true;
    }
  }

  lemma InSetOf(queue: seq<EventId>, id: EventId)
    ensures id in SetOf(queue) <==> id in queue
  {
  }

  lemma SendsStep(max: nat, sent: seq<Event>, rows: seq<Event>)
    ensures Sends(max, sent, rows) == if rows == [] then []
                                      else if rows[0].id in Remembered(max, sent) then Sends(max, sent, rows[1..])
                                      else [rows[0]] + Sends(max, sent + [rows[0]], rows[1..])
  {
  }

  lemma WatermarkNext(since: Time, sent: seq<Event>, e: Event)
    ensures Watermark(since, sent + [e]) == if e.at > Watermark(since, sent) then e.at else Watermark(since, sent)
  {
    assert (sent + [e])[..|sent|] == sent;
  }

  lemma RememberedNext(max: nat, sent: seq<Event>, e: Event)
    requires max > 0
    ensures var longer := Remembered(max, sent) + [e.id];
            Remembered(max, sent + [e]) == if |longer| > max then longer[1..] else longer
  {
    var longer := Remembered(max, sent) + [e.id];
    assert Remembered(max, sent + [e]) == if |longer| > max then longer[1..] else longer;
  }

  lemma QueueGrows(queue: seq<EventId>, id: EventId)
    requires Distinct(queue) && id !in queue
    ensures Distinct(queue + [id]) && SetOf(queue + [id]) == SetOf(queue) + {id}
  {
  }

  lemma QueueShrinks(queue: seq<EventId>)
    requires Distinct(queue) && queue != []
    ensures Distinct(queue[1..]) && SetOf(queue[1..]) == SetOf(queue) - {queue[0]}
  {
    assert queue == [queue[0]] + queue[1..];
  }

  // ---------- what a poll reads ----------

  ghost predicate Ordered(events: seq<Event>) {
    forall i, j :: 0 <= i < j < |events| ==> events[i].at <= events[j].at
  }

  // The visible events at or after the watermark, by time, in any order within an instant.
  ghost predicate Reads(rows: seq<Event>, visible: set<Event>, watermark: Time) {
    Ordered(rows) && Distinct(rows) && SetOf(rows) == set e | e in visible && e.at >= watermark
  }

  // At most `max` of the events share an instant, and ids are not shared at all.
  ghost predicate Bounded(max: nat, all: set<Event>) {
    && (forall e, f :: e in all && f in all && e.id == f.id ==> e == f)
    && (forall e :: e in all ==> |Sharing(all, e.at)| <= max)
  }

  ghost function Sharing(all: set<Event>, at: Time): set<Event> {
    set e | e in all && e.at == at
  }

  // ---------- nothing is sent twice ----------

  lemma {:induction false} WatermarkIsLast(since: Time, sent: seq<Event>)
    requires Ordered(sent) && forall e :: e in sent ==> e.at >= since
    ensures sent != [] ==> Watermark(since, sent) == sent[|sent| - 1].at
    ensures sent == [] ==> Watermark(since, sent) == since
  {
    if |sent| > 1 {
      WatermarkIsLast(since, sent[..|sent| - 1]);
    }
  }

  // From an event at the last instant on, all are at that instant, so there are few.
  lemma {:induction false} TailIsShort(max: nat, sent: seq<Event>, all: set<Event>, i: nat)
    requires Ordered(sent) && Distinct(sent) && SetOf(sent) <= all && Bounded(max, all)
    requires i < |sent| && sent[i].at >= sent[|sent| - 1].at
    ensures |sent| - i <= max
  {
    var tail, same := sent[i..], Sharing(all, sent[i].at);
    forall j | 0 <= j < |tail|
      ensures tail[j] in same
    {
      assert sent[i + j] in SetOf(sent);
    }
    hide Bounded, SetOf;
    DistinctFits(tail, same);
  }

  // Among ordered events, one at the last instant is within the last `max`.
  lemma {:induction false} TailIsRemembered(max: nat, sent: seq<Event>, all: set<Event>, e: Event)
    requires Ordered(sent) && Distinct(sent) && SetOf(sent) <= all && Bounded(max, all)
    requires e in sent && e.at >= sent[|sent| - 1].at
    ensures e.id in Remembered(max, sent)
  {
    hide Bounded, Ordered, Distinct;
    var i :| 0 <= i < |sent| && sent[i] == e;
    TailIsShort(max, sent, all, i);
    var start := if |sent| <= max then 0 else |sent| - max;
    assert Remembered(max, sent)[i - start] == e.id;
  }

  lemma {:induction false} DistinctFits<T>(s: seq<T>, all: set<T>)
    requires (forall i, j :: 0 <= i < j < |s| ==> s[i] != s[j]) && forall i :: 0 <= i < |s| ==> s[i] in all
    ensures |s| <= |all|
  {
    if s != [] {
      var last := s[|s| - 1];
      assert last in all;
      DistinctFits(s[..|s| - 1], all - {last});
    }
  }

  // A remembered id is that of an event sent before.
  lemma {:induction false} RememberedWasSent(max: nat, sent: seq<Event>, all: set<Event>, e: Event)
    requires SetOf(sent) <= all && e in all && Bounded(max, all) && e.id in Remembered(max, sent)
    ensures e in sent
  {
    var start := if |sent| <= max then 0 else |sent| - max;
    var i :| 0 <= i < |Remembered(max, sent)| && Remembered(max, sent)[i] == e.id;
    assert sent[start + i].id == e.id && sent[start + i] in SetOf(sent);
  }

  // A poll sends exactly the rows not sent before, once each and in order.
  lemma {:induction false} PollSendsTheNew(max: nat, since: Time, sent: seq<Event>, rows: seq<Event>, all: set<Event>)
    requires Bounded(max, all) && SetOf(sent) <= all && SetOf(rows) <= all
    requires Ordered(sent) && Distinct(sent) && (forall e :: e in sent ==> e.at >= since)
    requires Ordered(rows) && Distinct(rows) && forall e :: e in rows ==> e.at >= Watermark(since, sent)
    ensures var after := sent + Sends(max, sent, rows);
            && Ordered(after) && Distinct(after) && SetOf(after) == SetOf(sent) + SetOf(rows)
            && (forall e :: e in after ==> e.at >= since)
    decreases |rows|
  {
    hide Bounded, Watermark, Sends, Remembered, Ordered, Distinct;
    if rows == [] {
      NoRows(max, sent);
    } else {
      var row, rest := rows[0], rows[1..];
      WatermarkIsLast(since, sent);
      SendsStep(max, sent, rows);
      FirstRow(rows);
      if row.id in Remembered(max, sent) {
        RememberedWasSent(max, sent, all, row);
        PollSendsTheNew(max, since, sent, rest, all);
        assert row in SetOf(sent);
      } else {
        if row in sent {
          TailIsRemembered(max, sent, all, row);
        }
        var next := sent + [row];
        WatermarkNext(since, sent, row);
        OneMore(sent, row);
        PollSendsTheNew(max, since, next, rest, all);
        assert sent + Sends(max, sent, rows) == next + Sends(max, next, rest);
      }
    }
  }

  lemma NoRows(max: nat, sent: seq<Event>)
    ensures sent + Sends(max, sent, []) == sent && SetOf<Event>([]) == {}
  {
  }

  lemma FirstRow(rows: seq<Event>)
    requires rows != [] && Ordered(rows) && Distinct(rows)
    ensures Ordered(rows[1..]) && Distinct(rows[1..]) && SetOf(rows) == {rows[0]} + SetOf(rows[1..])
    ensures rows[0] in rows && forall e :: e in rows[1..] ==> e in rows && e.at >= rows[0].at
  {
    var rest := rows[1..];
    assert rows == [rows[0]] + rest;
    assert forall k :: 0 <= k < |rest| ==> rest[k] == rows[k + 1];
  }

  lemma OneMore(sent: seq<Event>, row: Event)
    requires Ordered(sent) && Distinct(sent) && row !in sent && (sent != [] ==> sent[|sent| - 1].at <= row.at)
    ensures Ordered(sent + [row]) && Distinct(sent + [row]) && SetOf(sent + [row]) == SetOf(sent) + {row}
  {
  }

  // ---------- whole runs ----------

  // What one poll finds: the events visible then, and the rows read.
  datatype PollData = PollData(visible: set<Event>, rows: seq<Event>)

  function SentAfter(max: nat, polls: seq<PollData>, n: nat): seq<Event>
    requires n <= |polls|
  {
    if n == 0 then [] else
      var before := SentAfter(max, polls, n - 1);
      before + Sends(max, before, polls[n - 1].rows)
  }

  // Every poll reads from the watermark of the polls before it.
  ghost predicate Polling(max: nat, since: Time, polls: seq<PollData>, all: set<Event>) {
    forall n :: 0 <= n < |polls| ==>
      polls[n].visible <= all && Reads(polls[n].rows, polls[n].visible, Watermark(since, SentAfter(max, polls, n)))
  }

  ghost predicate VisibleBefore(polls: seq<PollData>, n: nat, e: Event) {
    exists m :: 0 <= m < n && m < |polls| && e in polls[m].visible
  }

  // Events first become visible at or after the watermark of that moment; they may go again.
  ghost predicate NoLateEvents(max: nat, since: Time, polls: seq<PollData>) {
    forall n, e :: 0 <= n < |polls| && e in polls[n].visible && e.at >= since && !VisibleBefore(polls, n, e) ==>
      e.at >= Watermark(since, SentAfter(max, polls, n))
  }

  lemma {:induction false} SentIsOrderly(max: nat, since: Time, polls: seq<PollData>, all: set<Event>, n: nat)
    requires max > 0 && Bounded(max, all) && Polling(max, since, polls, all) && n <= |polls|
    ensures var sent := SentAfter(max, polls, n);
            && Ordered(sent) && Distinct(sent) && SetOf(sent) <= all
            && (forall e :: e in sent ==> e.at >= since && VisibleBefore(polls, n, e))
    decreases n
  {
    hide Bounded, Watermark, Sends;
    if n > 0 {
      SentIsOrderly(max, since, polls, all, n - 1);
      var before, poll := SentAfter(max, polls, n - 1), polls[n - 1];
      var rows := poll.rows;
      assert Reads(rows, poll.visible, Watermark(since, before));
      forall e | e in rows
        ensures e in poll.visible && e.at >= Watermark(since, before) && e in all
      {
        assert e in SetOf(rows);
      }
      PollSendsTheNew(max, since, before, rows, all);
      forall e | e in SentAfter(max, polls, n)
        ensures e.at >= since && VisibleBefore(polls, n, e)
      {
        assert e in SetOf(before) + SetOf(rows);
        if e in rows {
          assert e in polls[n - 1].visible;
        } else {
          var m :| 0 <= m < n - 1 && m < |polls| && e in polls[m].visible;
          assert e in polls[m].visible && m < n;
        }
      }
    }
  }

  // Exactly once: over every run of polls, what has been sent is without repetition, in the
  // order of time, and is exactly the visible events from the start of the stream on.
  lemma {:induction false} ExactlyOnce(max: nat, since: Time, polls: seq<PollData>, all: set<Event>, n: nat, e: Event)
    requires max > 0 && Bounded(max, all) && Polling(max, since, polls, all) && NoLateEvents(max, since, polls) && n <= |polls|
    ensures Distinct(SentAfter(max, polls, n)) && Ordered(SentAfter(max, polls, n))
    ensures e in SentAfter(max, polls, n) <==> e.at >= since && VisibleBefore(polls, n, e)
    decreases n
  {
    hide Bounded, Watermark, Sends, Polling, NoLateEvents, Distinct, Ordered, VisibleBefore;
    SentIsOrderly(max, since, polls, all, n);
    VisibleStep(polls, n, e);
    if n > 0 && e.at >= since && VisibleBefore(polls, n, e) {
      ExactlyOnce(max, since, polls, all, n - 1, e);
      if !VisibleBefore(polls, n - 1, e) {
        NewIsNotLate(max, since, polls, n - 1, e);
        PolledIffAtWatermark(max, since, polls, all, n - 1, e);
      }
    }
  }

  lemma VisibleStep(polls: seq<PollData>, n: nat, e: Event)
    requires n <= |polls|
    ensures VisibleBefore(polls, n, e) <==> n > 0 && (VisibleBefore(polls, n - 1, e) || e in polls[n - 1].visible)
  {
    if n > 0 && VisibleBefore(polls, n - 1, e) {
      var m :| 0 <= m < n - 1 && m < |polls| && e in polls[m].visible;
      assert m < n;
    }
  }

  lemma NewIsNotLate(max: nat, since: Time, polls: seq<PollData>, n: nat, e: Event)
    requires NoLateEvents(max, since, polls) && n < |polls| && e in polls[n].visible && e.at >= since && !VisibleBefore(polls, n, e)
    ensures e.at >= Watermark(since, SentAfter(max, polls, n))
  {
  }

  // An event not sent before is sent by a poll that sees it exactly when it is not older
  // than the watermark.
  lemma {:induction false} PolledIffAtWatermark(max: nat, since: Time, polls: seq<PollData>, all: set<Event>, n: nat,
                                                e: Event)
    requires max > 0 && Bounded(max, all) && Polling(max, since, polls, all) && n < |polls|
    requires e in polls[n].visible && e !in SentAfter(max, polls, n)
    ensures e in SentAfter(max, polls, n + 1) <==> e.at >= Watermark(since, SentAfter(max, polls, n))
  {
    hide Bounded, Watermark, Sends;
    SentIsOrderly(max, since, polls, all, n);
    var before, rows := SentAfter(max, polls, n), polls[n].rows;
    assert Reads(rows, polls[n].visible, Watermark(since, before));
    forall x | x in rows
      ensures x in polls[n].visible && x.at >= Watermark(since, before) && x in all
    {
      assert x in SetOf(rows);
    }
    PollSendsTheNew(max, since, before, rows, all);
    assert SetOf(SentAfter(max, polls, n + 1)) == SetOf(before) + SetOf(rows);
    assert e in rows <==> e in SetOf(rows);
    assert e in SentAfter(max, polls, n + 1) <==> e in SetOf(SentAfter(max, polls, n + 1));
  }

  // And one that is older stays unsent for good.
  lemma {:induction false} LateIsLost(max: nat, since: Time, polls: seq<PollData>, all: set<Event>, n: nat, m: nat,
                                      e: Event)
    requires max > 0 && Bounded(max, all) && Polling(max, since, polls, all) && n <= m <= |polls|
    requires e !in SentAfter(max, polls, n) && e.at < Watermark(since, SentAfter(max, polls, n))
    ensures e !in SentAfter(max, polls, m) && e.at < Watermark(since, SentAfter(max, polls, m))
    decreases m
  {
    hide Bounded, Sends, Watermark, Reads, Polling;
    if m > n {
      LateIsLost(max, since, polls, all, n, m - 1, e);
      var before, rows := SentAfter(max, polls, m - 1), polls[m - 1].rows;
      PollingAt(max, since, polls, all, m - 1);
      NotRead(rows, polls[m - 1].visible, Watermark(since, before), e);
      SendsOnlyRows(max, before, rows);
      WatermarkGrows(since, before, Sends(max, before, rows));
    }
  }

  lemma PollingAt(max: nat, since: Time, polls: seq<PollData>, all: set<Event>, n: nat)
    requires Polling(max, since, polls, all) && n < |polls|
    ensures Reads(polls[n].rows, polls[n].visible, Watermark(since, SentAfter(max, polls, n)))
  {
  }

  lemma NotRead(rows: seq<Event>, visible: set<Event>, watermark: Time, e: Event)
    requires Reads(rows, visible, watermark) && e.at < watermark
    ensures e !in rows
  {
    assert e !in SetOf(rows);
  }

  lemma {:induction false} SendsOnlyRows(max: nat, sent: seq<Event>, rows: seq<Event>)
    ensures forall e :: e in Sends(max, sent, rows) ==> e in rows
    decreases |rows|
  {
    if rows != [] {
      SendsOnlyRows(max, sent, rows[1..]);
      SendsOnlyRows(max, sent + [rows[0]], rows[1..]);
    }
  }

  lemma {:induction false} WatermarkGrows(since: Time, sent: seq<Event>, more: seq<Event>)
    ensures Watermark(since, sent + more) >= Watermark(since, sent)
    decreases |more|
  {
    if more != [] {
      var init := more[..|more| - 1];
      WatermarkGrows(since, sent, init);
      assert sent + more == (sent + init) + [more[|more| - 1]];
      WatermarkNext(since, sent + init, more[|more| - 1]);
    } else {
      assert sent + more == sent;
    }
  }

  // ---------- the bound is needed ----------

  // Polling again with nothing new: the rows are those of the last instant, all sent before.
  // Nothing is repeated exactly when they are no more than the stream remembers.
  lemma {:induction false} QuietIffRemembered(max: nat, sent: seq<Event>, rows: seq<Event>)
    requires max > 0 && sent != [] && Distinct(Ids(sent)) && Ordered(sent)
    requires Distinct(rows) && SetOf(rows) == set e | e in sent && e.at == sent[|sent| - 1].at
    ensures Sends(max, sent, rows) == [] <==> |rows| <= max
  {
    hide Watermark;
    var last := sent[|sent| - 1].at;
    if |rows| <= max {
      forall e | e in rows
        ensures e.id in Remembered(max, sent)
      {
        assert e in SetOf(rows);
        var i :| 0 <= i < |sent| && sent[i] == e;
        InTheTail(max, sent, rows, i);
      }
      AllRemembered(max, sent, rows);
    } else if forall e :: e in rows ==> e.id in Remembered(max, sent) {
      assert forall e :: e in rows ==> e in SetOf(rows);
      RowIdsDistinct(sent, rows);
      DistinctFits(Ids(rows), SetOf(Remembered(max, sent)));
      SetOfSmaller(Remembered(max, sent));
    } else {
      SomeUnremembered(max, sent, rows);
    }
  }

  lemma {:induction false} InTheTail(max: nat, sent: seq<Event>, rows: seq<Event>, i: nat)
    requires Distinct(Ids(sent)) && Ordered(sent) && i < |sent| && sent[i].at == sent[|sent| - 1].at && |rows| <= max
    requires SetOf(rows) == set e | e in sent && e.at == sent[|sent| - 1].at
    ensures sent[i].id in Remembered(max, sent)
  {
    var start := if |sent| <= max then 0 else |sent| - max;
    if i < start {
      var tail := sent[i..];
      forall j | 0 <= j < |tail|
        ensures tail[j] in SetOf(rows)
      {
        assert sent[i + j] in sent && sent[i + j].at == sent[|sent| - 1].at;
      }
      forall j, k | 0 <= j < k < |tail|
        ensures tail[j] != tail[k]
      {
        assert Ids(sent)[i + j] != Ids(sent)[i + k];
      }
      DistinctFits(tail, SetOf(rows));
      SetOfSmaller(rows);
    } else {
      assert Remembered(max, sent)[i - start] == sent[i].id;
    }
  }

  lemma {:induction false} AllRemembered(max: nat, sent: seq<Event>, rows: seq<Event>)
    requires forall e :: e in rows ==> e.id in Remembered(max, sent)
    ensures Sends(max, sent, rows) == []
  {
    hide Remembered;
    if rows != [] {
      AllRemembered(max, sent, rows[1..]);
    }
  }

  lemma {:induction false} SomeUnremembered(max: nat, sent: seq<Event>, rows: seq<Event>)
    requires !forall e :: e in rows ==> e.id in Remembered(max, sent)
    ensures Sends(max, sent, rows) != []
  {
    hide Remembered;
    if rows != [] && rows[0].id in Remembered(max, sent) {
      SomeUnremembered(max, sent, rows[1..]);
    }
  }

  lemma RowIdsDistinct(sent: seq<Event>, rows: seq<Event>)
    requires Distinct(Ids(sent)) && Distinct(rows) && forall e :: e in rows ==> e in sent
    ensures Distinct(Ids(rows))
  {
    forall i, j | 0 <= i < j < |rows|
      ensures rows[i].id != rows[j].id
    {
      assert rows[i] in sent && rows[j] in sent;
      var k, m :| 0 <= k < |sent| && 0 <= m < |sent| && sent[k] == rows[i] && sent[m] == rows[j];
      assert k != m;
      assert Ids(sent)[k] != Ids(sent)[m];
    }
  }

  // The generator: one stream object, polled over and over.
  method StreamEvents(since: Time, polls: seq<PollData>) returns (out: seq<Event>)
    ensures out == SentAfter(SSE_SEEN_MAX, polls, |polls|)
  {
    hide Sends;
    var stream := new Stream(SSE_SEEN_MAX, since);
    out := [];
    for i := 0 to |polls|
      invariant stream.Valid() && stream.max == SSE_SEEN_MAX && stream.sent == out == SentAfter(SSE_SEEN_MAX, polls, i)
    {
      var part := stream.Poll(polls[i].rows);
      out := out + part;
    }
  }
}
