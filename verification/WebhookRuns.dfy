/**
 * What holds of webhook deliveries over every run of passes, events, registrations and replays.
 */
module WebhookRuns {
  import opened Prelude
  import opened CircuitBreaker
  import opened Webhook

  const BATCH_SIZE := 50

  // ----- what the log says

  /** The requests that were answered for a delivery since it was last queued. */
  function DialsSince(log: seq<Entry>, d: Id): nat {
    if log == [] then 0
    else
      var front := log[..|log| - 1];
      match log[|log| - 1]
      case Requeued(q) => if q == d then 0 else DialsSince(front, d)
      case Unanswered(_, _, _) => DialsSince(front, d)
      case Dialled(q, _, _, _, _, _, _) => if q == d then DialsSince(front, d) + 1 else DialsSince(front, d)
  }

  /** The last request to an endpoint that was answered. */
  function LastDial(log: seq<Entry>, e: Id): Option<Entry> {
    if log == [] then None
    else if log[|log| - 1].Dialled? && log[|log| - 1].endpoint == e then Some(log[|log| - 1])
    else LastDial(log[..|log| - 1], e)
  }

  /** The last thing said about a delivery: an answer or a replay. */
  function LastOf(log: seq<Entry>, d: Id): Option<Entry> {
    if log == [] then None
    else if !log[|log| - 1].Unanswered? && log[|log| - 1].delivery == d then Some(log[|log| - 1])
    else LastOf(log[..|log| - 1], d)
  }

  /** The endpoint answered with a code from 200 to 299. */
  predicate IsOk(entry: Entry) {
    entry.Dialled? && entry.code.Some? && 200 <= entry.code.value <= 299
  }

  predicate IsGoneFrom(entry: Entry, e: Id) {
    entry.Dialled? && entry.endpoint == e && entry.code == Some(410)
  }

  /** The endpoint has answered 410. */
  ghost predicate ToldToStop(log: seq<Entry>, e: Id) {
    exists k :: 0 <= k < |log| && IsGoneFrom(log[k], e)
  }

  /** No request was made to an endpoint that had answered 410. */
  ghost predicate Heeded(log: seq<Entry>) {
    forall k :: 0 <= k < |log| && !log[k].Requeued? ==> !ToldToStop(log[..k], log[k].endpoint)
  }

  lemma LastOneMore(log: seq<Entry>, entry: Entry, d: Id)
    ensures LastOf(log + [entry], d) ==
            if !entry.Unanswered? && entry.delivery == d then Some(entry) else LastOf(log, d)
  {
    assert (log + [entry])[..|log|] == log;
  }

  lemma ToldOneMore(log: seq<Entry>, entry: Entry, e: Id)
    ensures ToldToStop(log + [entry], e) <==> ToldToStop(log, e) || IsGoneFrom(entry, e)
  {
    var more := log + [entry];
    if ToldToStop(log, e) {
      var k :| 0 <= k < |log| && IsGoneFrom(log[k], e);
      assert IsGoneFrom(more[k], e);
    }
    if IsGoneFrom(entry, e) { assert IsGoneFrom(more[|log|], e); }
  }

  lemma HeededOneMore(log: seq<Entry>, entry: Entry)
    requires Heeded(log) && (entry.Requeued? || !ToldToStop(log, entry.endpoint))
    ensures Heeded(log + [entry])
  {
    var more := log + [entry];
    forall k | 0 <= k < |more| && !more[k].Requeued? ensures !ToldToStop(more[..k], more[k].endpoint) {
      if k < |log| { assert more[..k] == log[..k] && more[k] == log[k]; } else { assert more[..k] == log; }
    }
  }

  /** The answer opened the breaker. */
  predicate Tripped(last: Option<Entry>) {
    last.Some? && last.value.Dialled? && last.value.tripped
  }

  /** A pass that reads `read` is a whole cooldown after the reading of the pass whose answer opened the breaker. */
  predicate Waits(log: seq<Entry>, e: Id, read: Time) {
    Tripped(LastDial(log, e)) ==> read >= LastDial(log, e).value.read + COOLDOWN_MS
  }

  predicate EntryWaits(log: seq<Entry>, entry: Entry) {
    !entry.Requeued? ==> Waits(log, entry.endpoint, entry.read)
  }

  ghost predicate Spaced(log: seq<Entry>) {
    forall k :: 0 <= k < |log| ==> EntryWaits(log[..k], log[k])
  }

  lemma LogOneMore(log: seq<Entry>, entry: Entry)
    ensures forall d :: DialsSince(log + [entry], d) ==
                        if entry.Requeued? && entry.delivery == d then 0
                        else DialsSince(log, d) + if entry.Dialled? && entry.delivery == d then 1 else 0
    ensures forall e :: LastDial(log + [entry], e) ==
                        if entry.Dialled? && entry.endpoint == e then Some(entry) else LastDial(log, e)
    ensures Spaced(log) && EntryWaits(log, entry) ==> Spaced(log + [entry])
  {
    var more := log + [entry];
    assert more[..|more| - 1] == log;
    if Spaced(log) && EntryWaits(log, entry) {
      forall k | 0 <= k < |more|
        ensures EntryWaits(more[..k], more[k])
      {
        assert more[..k] == log[..k];
        if k == |log| { assert log[..k] == log; }
      }
    }
  }

  // ----- the invariant

  /** Every delivery keeps count of its requests, and one still pending has some left and an active endpoint. */
  ghost predicate BudgetKept(h: Hooks, d: Id)
    requires d < |h.deliveries|
  {
    var row := h.deliveries[d];
    && row.endpoint < |h.endpoints|
    && row.attempts == DialsSince(h.log, d) <= MAX_ATTEMPTS
    && (row.status == Pending ==> row.attempts < MAX_ATTEMPTS && h.endpoints[row.endpoint].active)
  }

  /** An endpoint's breaker is consistent and remembers the last answer that opened it. */
  ghost predicate BreakerKept(h: Hooks, e: Id)
    requires e < |h.endpoints|
  {
    var breaker, last := h.endpoints[e].breaker, LastDial(h.log, e);
    && Consistent(breaker)
    && (Tripped(last) ==>
          || (breaker.state == Open && breaker.openedAt == Some(last.value.read))
          || (breaker.state == HalfOpen && breaker.openedAt.value >= last.value.read + COOLDOWN_MS))
  }

  /** A delivery is delivered exactly when the last thing said about it is a success; it keeps the last code. */
  predicate DoneKept(h: Hooks, d: Id)
    requires d < |h.deliveries|
  {
    var row, last := h.deliveries[d], LastOf(h.log, d);
    && (row.status == Delivered <==> last.Some? && IsOk(last.value))
    && row.lastStatusCode == if last.Some? && last.value.Dialled? then last.value.code else None
  }

  /** An endpoint is active until it answers 410. */
  ghost predicate GoneKept(h: Hooks, e: Id)
    requires e < |h.endpoints|
  {
    h.endpoints[e].active <==> !ToldToStop(h.log, e)
  }

  /** What the log says of the rows. */
  ghost predicate Told(h: Hooks) {
    && (forall d :: 0 <= d < |h.deliveries| ==> DoneKept(h, d))
    && (forall e :: 0 <= e < |h.endpoints| ==> GoneKept(h, e))
    && Heeded(h.log)
  }

  ghost predicate Sound(h: Hooks) {
    && Told(h)
    && (forall d :: 0 <= d < |h.deliveries| ==> BudgetKept(h, d))
    && (forall e :: 0 <= e < |h.endpoints| ==> BreakerKept(h, e))
    && (forall k :: 0 <= k < |h.log| ==> h.log[k].delivery < |h.deliveries|)
    && (forall k :: 0 <= k < |h.log| ==> h.log[k].Dialled? ==> h.log[k].endpoint < |h.endpoints|)
    && Spaced(h.log)
  }

  lemma {:induction false} NothingSince(log: seq<Entry>, d: Id)
    requires forall k :: 0 <= k < |log| ==> log[k].delivery != d
    ensures DialsSince(log, d) == 0
  {
    if log != [] { NothingSince(log[..|log| - 1], d); }
  }

  lemma {:induction false} NothingSaid(log: seq<Entry>, d: Id)
    requires forall k :: 0 <= k < |log| ==> log[k].delivery != d
    ensures LastOf(log, d) == None
  {
    if log != [] { NothingSaid(log[..|log| - 1], d); }
  }

  lemma {:induction false} NeverDialled(log: seq<Entry>, e: Id)
    requires forall k :: 0 <= k < |log| ==> log[k].Dialled? ==> log[k].endpoint != e
    ensures LastDial(log, e) == None
  {
    if log != [] { NeverDialled(log[..|log| - 1], e); }
  }

  // ----- one turn of a pass

  /** What a turn relies on: the pass carries the row's breaker, and `d` is still to be sent. */
  ghost predicate Ready(x: Draining, e: Id, d: Id) {
    && Sound(x.hooks) && e < |x.hooks.endpoints| && x.breaker == x.hooks.endpoints[e].breaker
    && d < |x.hooks.deliveries| && x.hooks.deliveries[d].endpoint == e
    && (!x.disabled ==> x.hooks.deliveries[d].status == Pending)
  }

  /** Deliveries other than `d` are as they were, unless the endpoint has been disabled. */
  predicate OthersStay(x: Draining, x': Draining, d: Id) {
    && SameShape(x.hooks, x'.hooks)
    && (x.disabled ==> x'.disabled)
    && (!x'.disabled ==> forall i :: 0 <= i < |x.hooks.deliveries| && i != d ==>
          x'.hooks.deliveries[i] == x.hooks.deliveries[i])
  }

  /** Persisting an admitted probe before it leaves. */
  lemma PersistKeeps(x: Draining, e: Id, d: Id, now: Time)
    requires Ready(x, e, d) && !x.disabled && Admit(x.breaker, now).allow
    ensures var breaker := CarriedInto(x, now);
            var h := Persisted(x.hooks, e, breaker);
            && Sound(h) && Consistent(breaker)
            && (breaker.state == x.breaker.state ==> h == x.hooks)
            && Waits(h.log, e, now)
  {
    var breaker := CarriedInto(x, now);
    var h := Persisted(x.hooks, e, breaker);
    assert BreakerKept(x.hooks, e);
    forall i | 0 <= i < |h.endpoints| ensures BreakerKept(h, i) {
      assert BreakerKept(x.hooks, i);
    }
    forall i | 0 <= i < |h.deliveries| ensures BudgetKept(h, i) {
      assert BudgetKept(x.hooks, i);
    }
    SameLogIsTold(x.hooks, h);
  }

  /** Nothing that the log tells of has changed. */
  lemma SameLogIsTold(h: Hooks, h': Hooks)
    requires Told(h) && h'.log == h.log && |h'.deliveries| == |h.deliveries| && |h'.endpoints| == |h.endpoints|
    requires forall i :: 0 <= i < |h.deliveries| ==>
               && h'.deliveries[i].lastStatusCode == h.deliveries[i].lastStatusCode
               && (h'.deliveries[i].status == Delivered <==> h.deliveries[i].status == Delivered)
    requires forall i :: 0 <= i < |h.endpoints| ==> h'.endpoints[i].active == h.endpoints[i].active
    ensures Told(h')
  {
    forall i | 0 <= i < |h.deliveries| ensures DoneKept(h', i) {
      assert DoneKept(h, i);
    }
    forall i | 0 <= i < |h.endpoints| ensures GoneKept(h', i) {
      assert GoneKept(h, i);
    }
  }

  /** An answer may be recorded for `d`. */
  ghost predicate Answerable(h: Hooks, e: Id, d: Id, breaker: Snapshot, now: Time) {
    && Sound(h) && e < |h.endpoints| && d < |h.deliveries| && h.deliveries[d].endpoint == e
    && h.deliveries[d].status == Pending && Consistent(breaker) && breaker == h.endpoints[e].breaker
    && Waits(h.log, e, now)
  }

  lemma BudgetAfterAnswer(h: Hooks, e: Id, d: Id, breaker: Snapshot, pass: Pass, i: Id)
    requires Answerable(h, e, d, breaker, pass.now) && i < |h.deliveries|
    ensures |Answered(h, d, breaker, pass).deliveries| == |h.deliveries|
    ensures BudgetKept(Answered(h, d, breaker, pass), i)
  {
    var log' := Answered(h, d, breaker, pass).log;
    assert log' == h.log + [log'[|h.log|]];
    AnswerCounts(h.log, log'[|h.log|], i);
    assert BudgetKept(h, d) && BudgetKept(h, i);
    if i == d { assert DialsSince(log', i) == DialsSince(h.log, i) + 1; }
  }

  lemma AnswerCounts(log: seq<Entry>, entry: Entry, i: Id)
    requires entry.Dialled?
    ensures DialsSince(log + [entry], i) == DialsSince(log, i) + if i == entry.delivery then 1 else 0
  {
    LogOneMore(log, entry);
  }

  lemma BreakerAfterAnswer(h: Hooks, e: Id, d: Id, breaker: Snapshot, pass: Pass, i: Id)
    requires Answerable(h, e, d, breaker, pass.now) && i < |h.endpoints|
    ensures |Answered(h, d, breaker, pass).endpoints| == |h.endpoints|
    ensures BreakerKept(Answered(h, d, breaker, pass), i)
  {
    var h' := Answered(h, d, breaker, pass);
    var entry := h'.log[|h.log|];
    LogOneMore(h.log, entry);
    assert BreakerKept(h, i);
    assert LastDial(h'.log, i) == if i == e then Some(entry) else LastDial(h.log, i);
  }

  lemma DoneAfterAnswer(h: Hooks, e: Id, d: Id, breaker: Snapshot, pass: Pass, i: Id)
    requires Answerable(h, e, d, breaker, pass.now) && i < |h.deliveries|
    ensures |Answered(h, d, breaker, pass).deliveries| == |h.deliveries|
    ensures DoneKept(Answered(h, d, breaker, pass), i)
  {
    var log' := Answered(h, d, breaker, pass).log;
    assert log' == h.log + [log'[|h.log|]] && log'[|h.log|].code == pass.send(d);
    LastOneMore(h.log, log'[|h.log|], i);
    assert DoneKept(h, i);
  }

  lemma GoneAfterAnswer(h: Hooks, e: Id, d: Id, breaker: Snapshot, pass: Pass, i: Id)
    requires Answerable(h, e, d, breaker, pass.now) && i < |h.endpoints|
    ensures |Answered(h, d, breaker, pass).endpoints| == |h.endpoints|
    ensures GoneKept(Answered(h, d, breaker, pass), i)
  {
    var log' := Answered(h, d, breaker, pass).log;
    assert log' == h.log + [log'[|h.log|]] && log'[|h.log|].code == pass.send(d);
    ToldOneMore(h.log, log'[|h.log|], i);
    assert GoneKept(h, i);
  }

  lemma AnswerIsTold(h: Hooks, e: Id, d: Id, breaker: Snapshot, pass: Pass)
    requires Answerable(h, e, d, breaker, pass.now)
    ensures Told(Answered(h, d, breaker, pass))
  {
    var h' := Answered(h, d, breaker, pass);
    forall i | 0 <= i < |h'.deliveries| ensures |h'.deliveries| == |h.deliveries| && DoneKept(h', i) {
      DoneAfterAnswer(h, e, d, breaker, pass, i);
    }
    forall i | 0 <= i < |h'.endpoints| ensures |h'.endpoints| == |h.endpoints| && GoneKept(h', i) {
      GoneAfterAnswer(h, e, d, breaker, pass, i);
    }
    assert BudgetKept(h, d) && GoneKept(h, e);
    HeededOneMore(h.log, h'.log[|h.log|]);
  }

  lemma AnswerKeeps(h: Hooks, e: Id, d: Id, breaker: Snapshot, pass: Pass)
    requires Answerable(h, e, d, breaker, pass.now)
    ensures Sound(Answered(h, d, breaker, pass))
  {
    var h' := Answered(h, d, breaker, pass);
    forall i | 0 <= i < |h.deliveries| ensures |h'.deliveries| == |h.deliveries| && BudgetKept(h', i) {
      BudgetAfterAnswer(h, e, d, breaker, pass, i);
    }
    forall i | 0 <= i < |h.endpoints| ensures |h'.endpoints| == |h.endpoints| && BreakerKept(h', i) {
      BreakerAfterAnswer(h, e, d, breaker, pass, i);
    }
    LogOneMore(h.log, h'.log[|h.log|]);
    AnswerIsTold(h, e, d, breaker, pass);
  }

  lemma ParkKeeps(h: Hooks, d: Id, row: Delivery)
    requires Sound(h) && d < |h.deliveries|
    requires row.endpoint == h.deliveries[d].endpoint && row.attempts == h.deliveries[d].attempts
    requires row.lastStatusCode == h.deliveries[d].lastStatusCode
    requires row.status == h.deliveries[d].status || (h.deliveries[d].status == Pending && row.status == GaveUp)
    ensures Sound(h.(deliveries := h.deliveries[d := row]))
  {
    var h' := h.(deliveries := h.deliveries[d := row]);
    SameLogIsTold(h, h');
    forall i | 0 <= i < |h.deliveries| ensures BudgetKept(h', i) {
      assert BudgetKept(h, i);
    }
    forall i | 0 <= i < |h.endpoints| ensures BreakerKept(h', i) {
      assert BreakerKept(h, i);
    }
  }

  lemma TurnKeeps(x: Draining, e: Id, d: Id, pass: Pass)
    requires Ready(x, e, d)
    ensures var x' := Turn(pass)(x, d);
            && Sound(x'.hooks) && x'.breaker == x'.hooks.endpoints[e].breaker && OthersStay(x, x', d)
            && x'.delivered + x'.failed + x'.skipped == x.delivered + x.failed + x.skipped + 1
  {
    if !x.disabled {
      var decision := Admit(x.breaker, pass.now);
      if !decision.allow {
        ParkKeeps(x.hooks, d, x.hooks.deliveries[d].(nextAttemptAt := decision.retryAt.value));
      } else {
        PersistKeeps(x, e, d, pass.now);
        var breaker := CarriedInto(x, pass.now);
        var h := Persisted(x.hooks, e, breaker);
        if h.endpoints[e].secretOpens {
          AnswerKeeps(h, e, d, breaker, pass);
        } else {
          ParkKeeps(h, d, h.deliveries[d].(status := GaveUp));
        }
      }
    }
  }

  // ----- a whole pass

  predicate AllDifferent(ids: seq<Id>) {
    forall i, j :: 0 <= i < j < |ids| ==> ids[i] != ids[j]
  }

  ghost predicate GroupReady(x: Draining, e: Id, group: seq<Id>) {
    && AllDifferent(group)
    && Sound(x.hooks) && e < |x.hooks.endpoints| && x.breaker == x.hooks.endpoints[e].breaker
    && forall k :: 0 <= k < |group| ==> Ready(x, e, group[k])
  }

  lemma {:induction false} DrainKeeps(x: Draining, e: Id, group: seq<Id>, pass: Pass)
    requires GroupReady(x, e, group)
    ensures var x' := Fold(Turn(pass), x, group);
            && Sound(x'.hooks) && SameShape(x.hooks, x'.hooks)
            && x'.delivered + x'.failed + x'.skipped == x.delivered + x.failed + x.skipped + |group|
    decreases |group|
  {
    if group != [] {
      assert Ready(x, e, group[0]);
      TurnKeeps(x, e, group[0], pass);
      var x1 := Turn(pass)(x, group[0]);
      forall k | 0 <= k < |group| - 1
        ensures Ready(x1, e, group[1..][k])
      {
        assert Ready(x, e, group[k + 1]) && group[0] != group[k + 1];
      }
      DrainKeeps(x1, e, group[1..], pass);
    }
  }

  /** An endpoint's part of the log: its requests. */
  function LogOf(log: seq<Entry>, e: Id): seq<Entry> {
    Filter(RequestTo(e), log)
  }

  function RequestTo(e: Id): Entry -> bool {
    (entry: Entry) => !entry.Requeued? && entry.endpoint == e
  }

  lemma LogOfOneMore(log: seq<Entry>, entry: Entry, e: Id)
    ensures LogOf(log + [entry], e) == LogOf(log, e) + if RequestTo(e)(entry) then [entry] else []
  {
    FilterConcat(RequestTo(e), log, [entry]);
    assert [entry][1..] == [];
  }

  /** Nothing but one endpoint, its deliveries and its part of the log is touched. */
  ghost predicate Local(h: Hooks, h': Hooks, e: Id) {
    && SameShape(h, h')
    && (forall i: Id :: i != e ==> LogOf(h'.log, i) == LogOf(h.log, i))
    && (forall i :: 0 <= i < |h.endpoints| && i != e ==> h'.endpoints[i] == h.endpoints[i])
    && (forall i :: 0 <= i < |h.deliveries| && h.deliveries[i].endpoint != e ==> h'.deliveries[i] == h.deliveries[i])
  }

  lemma TurnIsLocal(x: Draining, e: Id, d: Id, pass: Pass)
    requires d < |x.hooks.deliveries| && x.hooks.deliveries[d].endpoint == e
    ensures Local(x.hooks, Turn(pass)(x, d).hooks, e)
  {
    var log, log' := x.hooks.log, Turn(pass)(x, d).hooks.log;
    if log' != log {
      assert log' == log + [log'[|log|]] && RequestTo(e)(log'[|log|]);
      forall i: Id | i != e ensures LogOf(log', i) == LogOf(log, i) {
        LogOfOneMore(log, log'[|log|], i);
      }
    }
  }

  /** So endpoints can be drained side by side: what one drain reads, no other writes. */
  lemma {:induction false} DrainIsLocal(x: Draining, e: Id, group: seq<Id>, pass: Pass)
    requires BelongTo(x.hooks, group, e)
    ensures Local(x.hooks, Fold(Turn(pass), x, group).hooks, e)
    decreases |group|
  {
    if group != [] {
      TurnIsLocal(x, e, group[0], pass);
      var x1 := Turn(pass)(x, group[0]);
      assert BelongTo(x1.hooks, group[1..], e) by {
        assert forall k :: 0 <= k < |group| - 1 ==> group[1..][k] == group[k + 1];
      }
      DrainIsLocal(x1, e, group[1..], pass);
    }
  }

  ghost predicate GroupsReady(h: Hooks, groups: seq<Group>) {
    && (forall i, j :: 0 <= i < j < |groups| ==> groups[i].endpoint != groups[j].endpoint)
    && (forall i :: 0 <= i < |groups| ==>
          groups[i].endpoint < |h.endpoints| && GroupPending(h, groups[i]))
  }

  predicate GroupPending(h: Hooks, g: Group) {
    && AllDifferent(g.deliveries)
    && forall k :: 0 <= k < |g.deliveries| ==>
         && g.deliveries[k] < |h.deliveries| && h.deliveries[g.deliveries[k]].endpoint == g.endpoint
         && h.deliveries[g.deliveries[k]].status == Pending
  }

  function Size(groups: seq<Group>): nat {
    if groups == [] then 0 else |groups[0].deliveries| + Size(groups[1..])
  }

  lemma {:induction false} GroupsKeep(t: Totals, groups: seq<Group>, pass: Pass)
    requires Sound(t.hooks) && GroupsReady(t.hooks, groups)
    ensures var t' := Fold(Share(pass), t, groups);
            Sound(t'.hooks) &&
              t'.delivered + t'.failed + t'.skipped == t.delivered + t.failed + t.skipped + Size(groups)
    decreases |groups|
  {
    if groups != [] {
      var g, x := groups[0], Starting(t.hooks, groups[0].endpoint);
      assert GroupPending(t.hooks, g);
      DrainKeeps(x, g.endpoint, g.deliveries, pass);
      DrainIsLocal(x, g.endpoint, g.deliveries, pass);
      var t1 := Share(pass)(t, g);
      forall i | 0 <= i < |groups| - 1
        ensures groups[1..][i].endpoint < |t1.hooks.endpoints| && GroupPending(t1.hooks, groups[1..][i])
      {
        assert GroupPending(t.hooks, groups[i + 1]) && groups[i + 1].endpoint != g.endpoint;
      }
      GroupsKeep(t1, groups[1..], pass);
    }
  }

  // ----- the groups of a pass are its deliveries

  predicate IsDue(h: Hooks, due: seq<Id>, now: Time) {
    && |due| <= BATCH_SIZE && AllDifferent(due)
    && forall k :: 0 <= k < |due| ==>
         && due[k] < |h.deliveries| && h.deliveries[due[k]].endpoint < |h.endpoints|
         && h.deliveries[due[k]].status == Pending && h.deliveries[due[k]].nextAttemptAt <= now
         && h.endpoints[h.deliveries[due[k]].endpoint].active
  }

  lemma {:induction false} FilterKeepsDifferent(p: Id -> bool, ids: seq<Id>)
    requires AllDifferent(ids)
    ensures AllDifferent(Filter(p, ids))
  {
    if ids != [] {
      FilterKeepsDifferent(p, ids[1..]);
      var rest := Filter(p, ids[1..]);
      forall k | 0 <= k < |rest| ensures rest[k] != ids[0] {
        FilteredAreThere(p, ids[1..], k);
        var j :| 0 <= j < |ids| - 1 && ids[1..][j] == rest[k];
        assert ids[j + 1] == rest[k];
      }
    }
  }

  lemma {:induction false} KeysAreDifferent(endpointOf: Id -> Id, due: seq<Id>)
    ensures AllDifferent(Distinct(endpointOf, due))
    ensures forall k :: 0 <= k < |due| ==> endpointOf(due[k]) in Distinct(endpointOf, due)
  {
    if due != [] {
      var front := due[..|due| - 1];
      KeysAreDifferent(endpointOf, front);
      forall k | 0 <= k < |due| ensures endpointOf(due[k]) in Distinct(endpointOf, due) {
        if k < |front| { assert front[k] == due[k]; }
      }
    }
  }

  function SizeBy(endpointOf: Id -> Id, keys: seq<Id>, due: seq<Id>): nat
    decreases |keys|
  {
    if keys == [] then 0 else |Filter(Of(endpointOf, keys[0]), due)| + SizeBy(endpointOf, keys[1..], due)
  }

  lemma {:induction false} OneMoreInKeys(endpointOf: Id -> Id, keys: seq<Id>, due: seq<Id>, d: Id)
    requires AllDifferent(keys)
    ensures SizeBy(endpointOf, keys, due + [d]) ==
            SizeBy(endpointOf, keys, due) + if endpointOf(d) in keys then 1 else 0
    decreases |keys|
  {
    if keys != [] {
      FilterConcat(Of(endpointOf, keys[0]), due, [d]);
      assert [d][1..] == [];
      assert AllDifferent(keys[1..]) && keys[0] !in keys[1..];
      OneMoreInKeys(endpointOf, keys[1..], due, d);
    }
  }

  lemma {:induction false} KeysCover(endpointOf: Id -> Id, keys: seq<Id>, due: seq<Id>)
    requires AllDifferent(keys) && forall k :: 0 <= k < |due| ==> endpointOf(due[k]) in keys
    ensures SizeBy(endpointOf, keys, due) == |due|
    decreases |due|
  {
    if due == [] {
      NothingInKeys(endpointOf, keys);
    } else {
      var front, last := due[..|due| - 1], due[|due| - 1];
      assert forall k :: 0 <= k < |front| ==> front[k] == due[k];
      KeysCover(endpointOf, keys, front);
      OneMoreInKeys(endpointOf, keys, front, last);
      assert due == front + [last];
    }
  }

  lemma {:induction false} NothingInKeys(endpointOf: Id -> Id, keys: seq<Id>)
    ensures SizeBy(endpointOf, keys, []) == 0
    decreases |keys|
  {
    if keys != [] { NothingInKeys(endpointOf, keys[1..]); }
  }

  lemma {:induction false} SizeIsBy(endpointOf: Id -> Id, keys: seq<Id>, due: seq<Id>, groups: seq<Group>)
    requires |groups| == |keys|
    requires forall k :: 0 <= k < |keys| ==> groups[k] == Group(keys[k], Filter(Of(endpointOf, keys[k]), due))
    ensures Size(groups) == SizeBy(endpointOf, keys, due)
    decreases |keys|
  {
    if keys != [] { SizeIsBy(endpointOf, keys[1..], due, groups[1..]); }
  }

  lemma DueGroupsAreReady(h: Hooks, due: seq<Id>, now: Time)
    requires IsDue(h, due, now)
    ensures GroupsReady(h, GroupsOf(EndpointOf(h), due)) && Size(GroupsOf(EndpointOf(h), due)) == |due|
  {
    var owner, keys, groups := EndpointOf(h), Distinct(EndpointOf(h), due), GroupsOf(EndpointOf(h), due);
    KeysAreDifferent(owner, due);
    KeysCover(owner, keys, due);
    SizeIsBy(owner, keys, due, groups);
    forall i | 0 <= i < |groups|
      ensures groups[i].endpoint < |h.endpoints| && GroupPending(h, groups[i])
    {
      GroupBelongs(h, h, due, i);
      FilterKeepsDifferent(Of(owner, keys[i]), due);
      forall k | 0 <= k < |groups[i].deliveries| ensures h.deliveries[groups[i].deliveries[k]].status == Pending {
        FilteredAreThere(Of(owner, keys[i]), due, k);
      }
    }
  }

  /** A pass accounts for every delivery it claimed. */
  lemma PassKeeps(h: Hooks, due: seq<Id>, pass: Pass)
    requires Sound(h) && IsDue(h, due, pass.now)
    ensures var t := Passed(h, due, pass);
            Sound(t.hooks) && t.delivered + t.failed + t.skipped == |due|
  {
    DueGroupsAreReady(h, due, pass.now);
    GroupsKeep(Totals(h, 0, 0, 0), GroupsOf(EndpointOf(h), due), pass);
  }

  // ----- a pass that is killed

  /** The deliveries are due and of one endpoint. */
  predicate IsShare(h: Hooks, group: seq<Id>, e: Id, now: Time) {
    group != [] && IsDue(h, group, now) && BelongTo(h, group, e)
  }

  /** The drain just before the turn in which its pass is killed. */
  function BeforeTheEnd(h: Hooks, e: Id, group: seq<Id>, pass: Pass): Draining
    requires e < |h.endpoints| && group != []
  {
    Fold(Turn(pass), Starting(h, e), group[..|group| - 1])
  }

  /** The pass is killed in the turn of the last of these deliveries, before its answer is recorded. */
  function Cut(h: Hooks, e: Id, group: seq<Id>, pass: Pass): Hooks
    requires e < |h.endpoints| && group != []
  {
    var x, d := BeforeTheEnd(h, e, group, pass), group[|group| - 1];
    if d < |x.hooks.deliveries| && x.hooks.deliveries[d].endpoint < |x.hooks.endpoints| then Killed(x, d, pass)
    else x.hooks
  }

  lemma BudgetAfterUnanswered(h: Hooks, d: Id, e: Id, now: Time, i: Id)
    requires i < |h.deliveries| && BudgetKept(h, i)
    ensures BudgetKept(h.(log := h.log + [Unanswered(d, e, now)]), i)
  {
    LogOneMore(h.log, Unanswered(d, e, now));
    assert DialsSince(h.log + [Unanswered(d, e, now)], i) == DialsSince(h.log, i);
  }

  lemma BreakerAfterUnanswered(h: Hooks, d: Id, e: Id, now: Time, i: Id)
    requires i < |h.endpoints| && BreakerKept(h, i)
    ensures BreakerKept(h.(log := h.log + [Unanswered(d, e, now)]), i)
  {
    LogOneMore(h.log, Unanswered(d, e, now));
    assert LastDial(h.log + [Unanswered(d, e, now)], i) == LastDial(h.log, i);
  }

  lemma UnansweredIsTold(h: Hooks, d: Id, e: Id, now: Time)
    requires Told(h) && e < |h.endpoints| && h.endpoints[e].active
    ensures Told(h.(log := h.log + [Unanswered(d, e, now)]))
  {
    var h', entry := h.(log := h.log + [Unanswered(d, e, now)]), Unanswered(d, e, now);
    forall i | 0 <= i < |h.deliveries| ensures DoneKept(h', i) {
      assert DoneKept(h, i);
      LastOneMore(h.log, entry, i);
    }
    forall i | 0 <= i < |h.endpoints| ensures GoneKept(h', i) {
      assert GoneKept(h, i);
      ToldOneMore(h.log, entry, i);
    }
    assert GoneKept(h, e);
    HeededOneMore(h.log, entry);
  }

  lemma UnansweredKeeps(h: Hooks, d: Id, e: Id, now: Time)
    requires Sound(h) && d < |h.deliveries| && e < |h.endpoints| && Waits(h.log, e, now) && h.endpoints[e].active
    ensures Sound(h.(log := h.log + [Unanswered(d, e, now)]))
  {
    UnansweredIsTold(h, d, e, now);
    var h' := h.(log := h.log + [Unanswered(d, e, now)]);
    forall i | 0 <= i < |h.deliveries| ensures BudgetKept(h', i) {
      BudgetAfterUnanswered(h, d, e, now, i);
    }
    forall i | 0 <= i < |h.endpoints| ensures BreakerKept(h', i) {
      BreakerAfterUnanswered(h, d, e, now, i);
    }
    LogOneMore(h.log, Unanswered(d, e, now));
  }

  lemma KilledKeeps(x: Draining, e: Id, d: Id, pass: Pass)
    requires Ready(x, e, d)
    ensures Sound(Killed(x, d, pass))
  {
    if !x.disabled && Admit(x.breaker, pass.now).allow {
      PersistKeeps(x, e, d, pass.now);
      assert BudgetKept(x.hooks, d);
      UnansweredKeeps(Persisted(x.hooks, e, CarriedInto(x, pass.now)), d, e, pass.now);
    }
  }

  /** What is left of a group is still ready once its front has been drained. */
  lemma {:induction false} DrainLeavesReady(x: Draining, e: Id, front: seq<Id>, d: Id, pass: Pass)
    requires GroupReady(x, e, front + [d])
    ensures Ready(Fold(Turn(pass), x, front), e, d)
    decreases |front|
  {
    var group := front + [d];
    assert group[|front|] == d;
    if front != [] {
      assert Ready(x, e, group[0]);
      TurnKeeps(x, e, group[0], pass);
      var x1, rest := Turn(pass)(x, group[0]), front[1..] + [d];
      assert group[1..] == rest;
      forall k | 0 <= k < |rest| ensures Ready(x1, e, rest[k]) {
        assert rest[k] == group[k + 1] && Ready(x, e, group[k + 1]) && group[0] != group[k + 1];
      }
      assert forall i, j :: 0 <= i < j < |rest| ==> rest[i] == group[i + 1] && rest[j] == group[j + 1];
      DrainLeavesReady(x1, e, front[1..], d, pass);
    }
  }

  lemma ShareIsReady(h: Hooks, e: Id, group: seq<Id>, pass: Pass)
    requires Sound(h) && IsShare(h, group, e, pass.now)
    ensures Ready(BeforeTheEnd(h, e, group, pass), e, group[|group| - 1])
  {
    assert group == group[..|group| - 1] + [group[|group| - 1]];
    DrainLeavesReady(Starting(h, e), e, group[..|group| - 1], group[|group| - 1], pass);
  }

  lemma CutKeeps(h: Hooks, e: Id, group: seq<Id>, pass: Pass)
    requires Sound(h) && IsShare(h, group, e, pass.now)
    ensures Sound(Cut(h, e, group, pass))
  {
    ShareIsReady(h, e, group, pass);
    KilledKeeps(BeforeTheEnd(h, e, group, pass), e, group[|group| - 1], pass);
  }

  // ----- every run

  /**
   * A pass killed while it drains several endpoints is one `PassKilled` for each that waits for an
   * answer, and a `PassMade` of the deliveries already taken for each that does not.
   */
  datatype Step =
    | EndpointRegistered(secretOpens: bool)
    | EventEmitted(subscribed: seq<Id>, now: Time)
    | DeliveryReplayed(delivery: Id, now: Time)
    | PassMade(due: seq<Id>, pass: Pass)
    | PassKilled(endpoint: Id, group: seq<Id>, pass: Pass)

  function Next(h: Hooks, step: Step): Hooks {
    match step
    case EndpointRegistered(secretOpens) => Registered(h, secretOpens)
    case EventEmitted(subscribed, now) => Emitted(h, subscribed, now)
    case DeliveryReplayed(d, now) => (match Replayed(h, d, now) case Ok(h') => h' case Err(_) => h)
    case PassMade(due, pass) => if IsDue(h, due, pass.now) then Passed(h, due, pass).hooks else h
    case PassKilled(e, group, pass) => if IsShare(h, group, e, pass.now) then Cut(h, e, group, pass) else h
  }

  function Run(h: Hooks, steps: seq<Step>): Hooks
    decreases |steps|
  {
    if |steps| == 0 then h else Run(Next(h, steps[0]), steps[1..])
  }

  lemma {:induction false} RunConcat(h: Hooks, a: seq<Step>, b: seq<Step>)
    ensures Run(h, a + b) == Run(Run(h, a), b)
    decreases |a|
  {
    if a == [] {
      assert a + b == b;
    } else {
      RunConcat(Next(h, a[0]), a[1..], b);
      assert (a + b)[1..] == a[1..] + b;
    }
  }

  lemma RunOneMore(h: Hooks, steps: seq<Step>, step: Step)
    ensures Run(h, steps + [step]) == Next(Run(h, steps), step)
  {
    RunConcat(h, steps, [step]);
    assert [step][1..] == [];
  }

  lemma RegisteringKeeps(h: Hooks, secretOpens: bool)
    requires Sound(h)
    ensures Sound(Registered(h, secretOpens))
  {
    var h' := Registered(h, secretOpens);
    NeverDialled(h.log, |h.endpoints|);
    forall d | 0 <= d < |h'.deliveries| ensures DoneKept(h', d) {
      assert DoneKept(h, d);
    }
    forall e | 0 <= e < |h'.endpoints| ensures GoneKept(h', e) {
      if e < |h.endpoints| { assert GoneKept(h, e); }
    }
    forall e | 0 <= e < |h'.endpoints| ensures BreakerKept(h', e) {
      if e < |h.endpoints| { assert BreakerKept(h, e); }
    }
    forall d | 0 <= d < |h.deliveries| ensures BudgetKept(h', d) {
      assert BudgetKept(h, d);
    }
  }

  lemma {:induction false} EmittingKeeps(h: Hooks, subscribed: seq<Id>, now: Time)
    requires Sound(h)
    ensures Sound(Emitted(h, subscribed, now))
    decreases |subscribed|
  {
    if subscribed != [] {
      if subscribed[0] < |h.endpoints| && h.endpoints[subscribed[0]].active {
        var h1 := h.(deliveries := h.deliveries + [Delivery(subscribed[0], Pending, 0, now, None)]);
        NothingSince(h.log, |h.deliveries|);
        NothingSaid(h.log, |h.deliveries|);
        forall d | 0 <= d < |h1.deliveries| ensures DoneKept(h1, d) {
          if d < |h.deliveries| { assert DoneKept(h, d); }
        }
        forall e | 0 <= e < |h.endpoints| ensures GoneKept(h1, e) {
          assert GoneKept(h, e);
        }
        forall d | 0 <= d < |h1.deliveries| ensures BudgetKept(h1, d) {
          if d < |h.deliveries| { assert BudgetKept(h, d); }
        }
        forall e | 0 <= e < |h.endpoints| ensures BreakerKept(h1, e) {
          assert BreakerKept(h, e);
        }
        EmittingKeeps(h1, subscribed[1..], now);
      } else {
        EmittingKeeps(h, subscribed[1..], now);
      }
    }
  }

  lemma ReplayIsTold(h: Hooks, d: Id, now: Time)
    requires Told(h) && Replayed(h, d, now).Ok?
    ensures Told(Replayed(h, d, now).value)
  {
    var h' := Replayed(h, d, now).value;
    forall i | 0 <= i < |h.deliveries| ensures DoneKept(h', i) {
      assert DoneKept(h, i);
      LastOneMore(h.log, Requeued(d), i);
    }
    forall e | 0 <= e < |h.endpoints| ensures GoneKept(h', e) {
      assert GoneKept(h, e);
      ToldOneMore(h.log, Requeued(d), e);
    }
    HeededOneMore(h.log, Requeued(d));
  }

  lemma ReplayingKeeps(h: Hooks, d: Id, now: Time)
    requires Sound(h) && Replayed(h, d, now).Ok?
    ensures Sound(Replayed(h, d, now).value)
  {
    var h' := Replayed(h, d, now).value;
    LogOneMore(h.log, Requeued(d));
    ReplayIsTold(h, d, now);
    forall i | 0 <= i < |h.deliveries| ensures BudgetKept(h', i) {
      assert BudgetKept(h, i);
    }
    forall e | 0 <= e < |h.endpoints| ensures BreakerKept(h', e) {
      assert BreakerKept(h, e);
    }
  }

  /** The invariant holds after any run, with any answers and any clock. */
  lemma {:induction false} EveryRunIsSound(h: Hooks, steps: seq<Step>)
    requires Sound(h)
    ensures Sound(Run(h, steps))
    decreases |steps|
  {
    if |steps| != 0 {
      match steps[0] {
        case EndpointRegistered(secretOpens) => RegisteringKeeps(h, secretOpens);
        case EventEmitted(subscribed, now) => EmittingKeeps(h, subscribed, now);
        case DeliveryReplayed(d, now) => if Replayed(h, d, now).Ok? { ReplayingKeeps(h, d, now); }
        case PassMade(due, pass) => if IsDue(h, due, pass.now) { PassKeeps(h, due, pass); }
        case PassKilled(e, group, pass) => if IsShare(h, group, e, pass.now) { CutKeeps(h, e, group, pass); }
      }
      EveryRunIsSound(Next(h, steps[0]), steps[1..]);
    }
  }

  const NO_HOOKS := Hooks([], [], [])

  /**
   * A request that leaves after its pass's reading is away from an answer that opened the breaker by
   * a cooldown less the time that answer came after the reading of its own pass.
   */
  predicate KeepsAway(log: seq<Entry>, entry: Entry) {
    entry.Dialled? && entry.read <= entry.left && Tripped(LastDial(log, entry.endpoint)) ==>
      var opening := LastDial(log, entry.endpoint).value;
      entry.left - opening.answered >= COOLDOWN_MS - (opening.answered - opening.read)
  }

  /**
   * In plain words, for any run: a delivery is answered at most six times between replays, one that
   * is pending has an attempt left and an active endpoint, the readings of passes that make requests
   * keep a whole cooldown away from the reading of a pass in which an answer opened the breaker, and
   * the requests themselves keep away from that answer by what is then left of the cooldown. A
   * delivery is delivered exactly when the last thing said about it is a success; an endpoint is active
   * until it answers 410, and after that no request is made to it.
   */
  lemma WebhookGuarantees(steps: seq<Step>)
    ensures var h := Run(NO_HOOKS, steps);
            && (forall d :: 0 <= d < |h.deliveries| ==> BudgetKept(h, d))
            && (forall e :: 0 <= e < |h.endpoints| ==> Consistent(h.endpoints[e].breaker))
            && Spaced(h.log)
            && (forall k :: 0 <= k < |h.log| ==> KeepsAway(h.log[..k], h.log[k]))
            && (forall d :: 0 <= d < |h.deliveries| ==> DoneKept(h, d))
            && (forall e :: 0 <= e < |h.endpoints| ==> GoneKept(h, e))
            && Heeded(h.log)
  {
    EveryRunIsSound(NO_HOOKS, steps);
    var h := Run(NO_HOOKS, steps);
    forall e | 0 <= e < |h.endpoints| ensures Consistent(h.endpoints[e].breaker) {
      assert BreakerKept(h, e);
    }
    forall k | 0 <= k < |h.log| ensures KeepsAway(h.log[..k], h.log[k]) {
      assert EntryWaits(h.log[..k], h.log[k]);
    }
  }

  // ----- one endpoint is not hammered

  /** How many of the last requests failed, with no success after them. */
  function FailingTail(log: seq<Entry>): nat {
    if log == [] then 0
    else
      var last := log[|log| - 1];
      if last.Dialled? && !IsOk(last) then FailingTail(log[..|log| - 1]) + 1 else 0
  }

  predicate AllFailed(log: seq<Entry>) {
    forall k :: 0 <= k < |log| ==> log[k].Dialled? && !IsOk(log[k])
  }

  /** Nothing more leaves in this pass. */
  predicate Stopped(x: Draining, now: Time) {
    x.disabled || (x.breaker.state != Closed && x.breaker.openedAt == Some(now))
  }

  /** `dials` left so far in the drain; `calm`: the breaker was closed when it began. */
  predicate Restrained(x: Draining, dials: seq<Entry>, calm: bool, now: Time) {
    && Consistent(x.breaker)
    && FailingTail(dials) <= FAILURE_THRESHOLD
    && (dials == [] ==> (x.breaker.state == Closed <==> calm))
    && (dials != [] ==>
          Stopped(x, now) || (x.breaker.state == Closed && FailingTail(dials) <= x.breaker.consecutiveFailures))
    && (!calm && AllFailed(dials) ==> dials == [] || (|dials| == 1 && Stopped(x, now)))
  }

  lemma DialedOneMore(dials: seq<Entry>, entry: Entry)
    requires entry.Dialled?
    ensures FailingTail(dials + [entry]) == if IsOk(entry) then 0 else FailingTail(dials) + 1
    ensures AllFailed(dials + [entry]) <==> AllFailed(dials) && !IsOk(entry)
  {
    var more := dials + [entry];
    assert more[..|more| - 1] == dials;
    if AllFailed(more) {
      forall k | 0 <= k < |dials| ensures dials[k].Dialled? && !IsOk(dials[k]) {
        assert more[k] == dials[k];
      }
      assert more[|dials|] == entry;
    }
  }

  /** A request leaves only from a drain that is not stopped. */
  lemma AnswerRestrains(x: Draining, dials: seq<Entry>, calm: bool, now: Time, x': Draining, entry: Entry)
    requires Restrained(x, dials, calm, now) && !x.disabled && Admit(x.breaker, now).allow
    requires entry.Dialled?
    requires if IsOk(entry) then x'.breaker == CLOSED_BREAKER
             else (x'.disabled && x'.breaker == CarriedInto(x, now)) ||
                  x'.breaker == OnFailure(CarriedInto(x, now), now)
    ensures Restrained(x', dials + [entry], calm, now)
  {
    DialedOneMore(dials, entry);
    assert !Stopped(x, now);
  }

  /** A turn in which nothing leaves: refused, skipped, or the secret does not open. */
  lemma QuietRestrains(x: Draining, dials: seq<Entry>, calm: bool, now: Time, x': Draining)
    requires Restrained(x, dials, calm, now)
    requires (x'.disabled == x.disabled && x'.breaker == x.breaker) ||
             (!x.disabled && Admit(x.breaker, now).allow && x'.breaker == CarriedInto(x, now))
    ensures Restrained(x', dials, calm, now)
  {
  }

  /** What a turn does to the log and to the breaker that is carried on. */
  lemma TurnLogs(x: Draining, d: Id, pass: Pass)
    ensures var x', log, log' := Turn(pass)(x, d), x.hooks.log, Turn(pass)(x, d).hooks.log;
            if log' == log then
              || (x'.disabled == x.disabled && x'.breaker == x.breaker)
              || (!x.disabled && Admit(x.breaker, pass.now).allow && x'.breaker == CarriedInto(x, pass.now))
            else
              && |log'| == |log| + 1 && log' == log + [log'[|log|]] && log'[|log|].Dialled?
              && !x.disabled && Admit(x.breaker, pass.now).allow
              && if IsOk(log'[|log|]) then x'.breaker == CLOSED_BREAKER
                 else (x'.disabled && x'.breaker == CarriedInto(x, pass.now)) ||
                      x'.breaker == OnFailure(CarriedInto(x, pass.now), pass.now)
  {
  }

  lemma TurnRestrains(x: Draining, d: Id, n: nat, calm: bool, pass: Pass)
    requires n <= |x.hooks.log| && Restrained(x, x.hooks.log[n..], calm, pass.now)
    ensures var x' := Turn(pass)(x, d);
            && n <= |x'.hooks.log| && x'.hooks.log[..n] == x.hooks.log[..n]
            && Restrained(x', x'.hooks.log[n..], calm, pass.now)
  {
    var x', log, log' := Turn(pass)(x, d), x.hooks.log, Turn(pass)(x, d).hooks.log;
    TurnLogs(x, d, pass);
    if log' == log {
      QuietRestrains(x, log[n..], calm, pass.now, x');
    } else {
      assert log'[n..] == log[n..] + [log'[|log|]];
      AnswerRestrains(x, log[n..], calm, pass.now, x', log'[|log|]);
    }
  }

  /**
   * In one drain no more than five requests in a row fail, and if the breaker was not closed when
   * it began, at most one leaves before a success. (A shorter drain is a drain, so this bounds
   * every stretch of failures, not only the last.)
   */
  lemma DrainIsRestrained(h: Hooks, e: Id, group: seq<Id>, pass: Pass)
    requires e < |h.endpoints| && Consistent(h.endpoints[e].breaker)
    ensures var x := Fold(Turn(pass), Starting(h, e), group);
            && |h.log| <= |x.hooks.log| && x.hooks.log[..|h.log|] == h.log
            && var dials := x.hooks.log[|h.log|..];
            && FailingTail(dials) <= FAILURE_THRESHOLD
            && (h.endpoints[e].breaker.state != Closed && AllFailed(dials) ==> |dials| <= 1)
  {
    var n, calm := |h.log|, h.endpoints[e].breaker.state == Closed;
    var holds := (x: Draining, done: seq<Id>) =>
      n <= |x.hooks.log| && x.hooks.log[..n] == h.log && Restrained(x, x.hooks.log[n..], calm, pass.now);
    forall x, done, d | holds(x, done)
      ensures holds(Turn(pass)(x, d), done + [d])
    {
      TurnRestrains(x, d, n, calm, pass);
    }
    assert h.log[..n] == h.log && h.log[n..] == [];
    FoldKeeps(Turn(pass), Starting(h, e), [], group, holds);
  }
}
