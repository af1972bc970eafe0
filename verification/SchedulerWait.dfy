/** How long a held-back message can wait: until every message ahead of it for the same
    recipient has left, which takes a bounded number of settled sends or one pick past the
    age limit. */
module SchedulerWait {
  import opened Prelude
  import opened Outbound
  import opened Scheduler
  import opened SchedulerOrder
  import opened SchedulerBudget
  import opened SchedulerRuns
  import opened SchedulerStall

  /** Something logged before position `b` for this recipient is still queued. */
  predicate SomethingAhead(w: World, b: nat, r: Bytes)
    requires b <= |w.log|
  {
    exists a :: 0 <= a < b && w.log[a].recipient == r && w.log[a].id in Ids(w.queue.pending)
  }

  // ---- Counted in settled sends --------------------------------------------

  /** Messages logged before position `b` for this recipient. */
  function Ahead(log: seq<Message>, b: nat, r: Bytes): nat
    requires b <= |log|
  {
    if b == 0 then 0 else Ahead(log, b - 1, r) + if log[b - 1].recipient == r then 1 else 0
  }

  /** Their settled sends so far, deferrals aside. */
  function SendsAhead(log: seq<Message>, sends: map<string, nat>, b: nat, r: Bytes): nat
    requires b <= |log|
  {
    if b == 0 then 0
    else SendsAhead(log, sends, b - 1, r) + if log[b - 1].recipient == r then Count(sends, log[b - 1].id) else 0
  }

  /** A logged message has had its budget at most, and less than that while it is queued. */
  lemma BudgetAt(w: World, a: nat)
    requires Inv(w) && a < |w.log|
    ensures Count(w.sends, w.log[a].id) <= 2 * w.policy.maxAttempts
    ensures w.log[a].id in Ids(w.queue.pending) ==> Count(w.sends, w.log[a].id) < 2 * w.policy.maxAttempts
  {
    var id := w.log[a].id;
    assert id in w.number;
    if id in Ids(w.queue.pending) {
      var i :| 0 <= i < |w.queue.pending| && w.queue.pending[i].id == id;
      assert Row(w.policy, w.queue.pending[i], w.log, w.number, w.sends, w.open);
    }
  }

  lemma {:induction false} BudgetAhead(w: World, b: nat, r: Bytes)
    requires Inv(w) && b <= |w.log|
    ensures SendsAhead(w.log, w.sends, b, r) <= 2 * w.policy.maxAttempts * Ahead(w.log, b, r)
    ensures SomethingAhead(w, b, r) ==>
              SendsAhead(w.log, w.sends, b, r) < 2 * w.policy.maxAttempts * Ahead(w.log, b, r)
  {
    hide Inv, Count;
    if b > 0 {
      BudgetAhead(w, b - 1, r);
      BudgetAt(w, b - 1);
      OneMore(2 * w.policy.maxAttempts, Ahead(w.log, b - 1, r));
      assert SomethingAhead(w, b, r) ==>
             SomethingAhead(w, b - 1, r) || (w.log[b - 1].recipient == r && w.log[b - 1].id in Ids(w.queue.pending));
    }
  }

  lemma OneMore(x: int, n: nat)
    ensures x * (n + 1) == x * n + x
  {
  }

  // ---- What the hold waits for, exactly ------------------------------------

  /** For a flagged message that is due and in nobody's hands, the hold is the only obstacle:
      it can be picked if and only if nothing ahead of it is queued. */
  lemma HeldExactly(w: World, now: Time, i: nat)
    requires Ordered(w) && Faithful(w) && i < |w.queue.pending|
    requires var m := w.queue.pending[i];
             m.afterEarlier && m.id !in w.queue.inFlight && (m.nextAttempt.Some? ==> m.nextAttempt.value <= now)
    ensures var m := w.queue.pending[i];
            && m.id in w.number && w.number[m.id] <= |w.log|
            && (Eligible(w.queue, now, i) <==> !SomethingAhead(w, w.number[m.id], m.recipient))
  {
    var s := w.queue.pending;
    var m := s[i];
    assert SameLetter(m, w.log[w.number[m.id]]);
    if HasEarlierFor(s, i, m.recipient) {
      var j :| 0 <= j < i && s[j].recipient == m.recipient;
      assert SameLetter(s[j], w.log[w.number[s[j].id]]);
      assert w.number[s[j].id] < w.number[m.id];
      assert s[j].id in Ids(s);
    }
    if SomethingAhead(w, w.number[m.id], m.recipient) {
      var a :| 0 <= a < w.number[m.id] && w.log[a].recipient == m.recipient && w.log[a].id in Ids(s);
      var j :| 0 <= j < |s| && s[j].id == w.log[a].id;
      assert SameLetter(s[j], w.log[w.number[s[j].id]]);
      assert j < i;
    }
  }

  /** The hold cannot wedge the queue. In every run, as long as a due, flagged message that
      nobody holds cannot be picked, the messages ahead of it have had fewer settled sends than
      twice the attempt budget for each of them; every further one (`FailureProgress`) brings
      that bound nearer. */
  lemma HoldIsBounded(ws: seq<World>, es: seq<Event>, n: nat, now: Time, i: nat)
    requires Run(ws, es) && n < |ws| && i < |ws[n].queue.pending| && !Eligible(ws[n].queue, now, i)
    requires var m := ws[n].queue.pending[i];
             m.afterEarlier && m.id !in ws[n].queue.inFlight && (m.nextAttempt.Some? ==> m.nextAttempt.value <= now)
    ensures var w := ws[n];
            var m := w.queue.pending[i];
            && m.id in w.number && w.number[m.id] <= |w.log|
            && SendsAhead(w.log, w.sends, w.number[m.id], m.recipient) <
               2 * w.policy.maxAttempts * Ahead(w.log, w.number[m.id], m.recipient)
  {
    hide Run, Inv, Eligible, SomethingAhead;
    Reachable(ws, es, n);
    InvOrdered(ws[n]);
    InvFaithful(ws[n]);
    HeldExactly(ws[n], now, i);
    BudgetAhead(ws[n], ws[n].number[ws[n].queue.pending[i].id], ws[n].queue.pending[i].recipient);
  }

  // ---- The age limit -------------------------------------------------------

  /** Everything queued ahead of position `b` for this recipient is past the age limit and in
      nobody's hands. */
  predicate AllOverdue(w: World, b: nat, r: Bytes, now: Time) {
    forall i :: 0 <= i < |w.queue.pending| && w.queue.pending[i].recipient == r
                && w.queue.pending[i].id in w.number && w.number[w.queue.pending[i].id] < b ==>
      Expired(w.queue.pending[i], w.queue.inFlight, now)
  }

  /** Whatever the sends do, the first pick past the age limit of the messages ahead clears
      the way. */
  lemma AgeEndsTheHold(ws: seq<World>, es: seq<Event>, n: nat, b: nat, r: Bytes)
    requires |ws| == |es| + 1 && Run(ws, es) && n < |es| && es[n].Picked? && b <= |ws[n].log|
    requires AllOverdue(ws[n], b, r, es[n].now)
    ensures b <= |ws[n + 1].log| && !SomethingAhead(ws[n + 1], b, r)
  {
    hide Run, Inv;
    Step(ws, es, n);
    Reachable(ws, es, n);
    InvOrdered(ws[n]);
    InvFaithful(ws[n]);
    PickClearsOverdue(ws[n], es[n].k, es[n].now, es[n].answers, b, r);
  }

  lemma PickClearsOverdue(w: World, k: nat, now: Time, answers: seq<Option<Time>>, b: nat, r: Bytes)
    requires Ordered(w) && Faithful(w) && k < |w.workers| && b <= |w.log| && AllOverdue(w, b, r, now)
    ensures var w' := Choose(w, k, now, answers); w'.log == w.log && !SomethingAhead(w', b, r)
  {
    var s := w.queue.pending;
    var gone := ExpiredIds(s, w.queue.inFlight, now);
    PickPending(w, k, now, answers);
    KeepIds(s, gone);
    forall a | 0 <= a < b && w.log[a].recipient == r && w.log[a].id in Ids(s)
      ensures w.log[a].id in gone
    {
      var i :| 0 <= i < |s| && s[i].id == w.log[a].id;
      assert SameLetter(s[i], w.log[w.number[s[i].id]]);
      assert w.number[s[i].id] == a;
    }
  }
}
