/** What a returned send does to its message, written out by outcome, and when a message may be
    picked again. */
module SchedulerSettle {
  import opened Prelude
  import opened Outbound
  import opened Scheduler
  import opened SchedulerBudget
  import opened SchedulerRuns
  import opened SchedulerStall

  /** The queued message a worker is about to settle. */
  function Settled(w: World, k: nat): Message
    requires k < |w.workers| && w.workers[k].Returned? && w.workers[k].id in Ids(w.queue.pending)
  {
    w.queue.pending[IndexOf(w.queue.pending, w.workers[k].id)]
  }

  /** The budget is spent and there is no other route left to try. */
  predicate OutOfRoutes(p: Policy, m: Message, attempts: int, hasNode: bool) {
    attempts >= p.maxAttempts && (m.propagated || !p.fallback || !hasNode)
  }

  lemma JudgeLeaves(p: Policy, m: Message, attempts: int, o: Outcome, hasNode: bool, now: Time)
    ensures var v := Judge(p, m, attempts, o, hasNode, now);
            && (v.Delivered? <==> o.Sent?)
            && (v.StampRefused? <==> o.StampTooHigh?)
            && (v.BudgetFailed? <==> (o.RecipientUnknown? || o.Failed?) && OutOfRoutes(p, m, attempts, hasNode))
  {
  }

  /** When a settled message leaves the queue, and under which fate: delivered exactly when the
      send succeeded, refused exactly when the stamp was too dear, failed exactly when a failed
      send was the last its budget and its routes allow. In every other case it stays. */
  lemma LeavesExactly(ws: seq<World>, es: seq<Event>, n: nat, k: nat)
    requires |ws| == |es| + 1 && Run(ws, es) && n < |es| && es[n].Finished? && es[n].k == k
    requires Enabled(ws[n], es[n])
    ensures var w, w' := ws[n], ws[n + 1];
            var m, x := Settled(w, k), w.workers[k];
            var spent := (x.outcome.RecipientUnknown? || x.outcome.Failed?)
                         && OutOfRoutes(w.policy, m, x.attempts, es[n].hasNode);
            && (m.id !in Ids(w'.queue.pending) <==> x.outcome.Sent? || x.outcome.StampTooHigh? || spent)
            && (m.id in w'.fate <==> x.outcome.Sent? || x.outcome.StampTooHigh? || spent)
            && (m.id in w'.fate ==>
                  && (w'.fate[m.id].WasDelivered? <==> x.outcome.Sent?)
                  && (w'.fate[m.id].WasStampRefused? <==> x.outcome.StampTooHigh?)
                  && (w'.fate[m.id].WasBudgetFailed? <==> spent))
  {
    hide Run, Inv, Judge, OutOfRoutes;
    Step(ws, es, n);
    Reachable(ws, es, n);
    var w, x := ws[n], ws[n].workers[k];
    Uniquely(w);
    NotYetFated(w, x.id);
    FinishEntry(w.policy, w.queue, x.id, x.attempts, x.outcome, es[n].hasNode, w.clock);
    JudgeLeaves(w.policy, Settled(w, k), x.attempts, x.outcome, es[n].hasNode, w.clock);
  }

  lemma NotYetFated(w: World, id: string)
    requires Inv(w) && id in Ids(w.queue.pending)
    ensures id !in w.fate
  {
  }

  /** The attempts a direct message has before the propagation route is tried. */
  predicate DirectSpent(p: Policy, attempts: int) {
    attempts >= p.maxAttempts || (0 < p.directAttempts <= attempts)
  }

  /** What a message that stays looks like: a deferral hands the attempt back, a re-route
      starts a fresh budget on the other route, and the next attempt is due after the wait that
      the outcome calls for. Nothing else about it changes. */
  predicate StaysAs(p: Policy, m: Message, m': Message, attempts: int, o: Outcome, hasNode: bool, now: Time) {
    var rerouted := !o.Deferral() && p.fallback && !m.propagated && hasNode && DirectSpent(p, attempts);
    && m' == m.(attempts := m'.attempts, propagated := m'.propagated, nextAttempt := m'.nextAttempt)
    && m'.propagated == (m.propagated || rerouted)
    && m'.attempts == (if o.Deferral() then m.attempts - 1 else if rerouted then 0 else m.attempts)
    && m'.nextAttempt == Some(now + if o.Deferral() || rerouted then p.retryWait
                                    else if o.RecipientUnknown? && attempts > p.pathlessTries then p.pathRequestWait
                                    else BackoffWait(p, attempts))
  }

  lemma JudgeStays(p: Policy, m: Message, attempts: int, o: Outcome, hasNode: bool, now: Time)
    requires p.Valid()
    ensures var v := Judge(p, m, attempts, o, hasNode, now);
            v.Retry? ==> StaysAs(p, m, v.m, attempts, o, hasNode, now)
  {
  }

  /** Every settled message that stays queued, in every run. */
  lemma StaysExactly(ws: seq<World>, es: seq<Event>, n: nat, k: nat)
    requires |ws| == |es| + 1 && Run(ws, es) && n < |es| && es[n].Finished? && es[n].k == k
    requires Enabled(ws[n], es[n]) && ws[n].workers[k].id in Ids(ws[n + 1].queue.pending)
    ensures var w, s' := ws[n], ws[n + 1].queue.pending;
            var x := w.workers[k];
            StaysAs(w.policy, Settled(w, k), s'[IndexOf(s', x.id)], x.attempts, x.outcome, es[n].hasNode, w.clock)
  {
    hide Run, Inv, Judge, StaysAs;
    Step(ws, es, n);
    Reachable(ws, es, n);
    var w, x := ws[n], ws[n].workers[k];
    Uniquely(w);
    PolicyValid(ws, es, n);
    FinishEntry(w.policy, w.queue, x.id, x.attempts, x.outcome, es[n].hasNode, w.clock);
    JudgeStays(w.policy, Settled(w, k), x.attempts, x.outcome, es[n].hasNode, w.clock);
  }

  lemma {:induction false} PolicyValid(ws: seq<World>, es: seq<Event>, n: nat)
    requires |ws| == |es| + 1 && Run(ws, es) && n < |ws|
    ensures ws[n].policy.Valid()
  {
    if n > 0 {
      PolicyValid(ws, es, n - 1);
      Step(ws, es, n - 1);
      PolicyFrame(ws[n - 1], es[n - 1]);
    }
  }

  lemma PolicyFrame(w: World, e: Event)
    requires Enabled(w, e)
    ensures Apply(w, e).policy == if e.Restarted? then e.policy else w.policy
  {
    match e
    case Enqueued(_) =>
    case Picked(_, _, _) =>
    case Began(_) =>
    case SendReturned(_, _) =>
    case Finished(_, _) =>
    case Restarted(_) =>
    case _ => QuietFrame(w, e);
  }

  // ---- Not before its time -------------------------------------------------

  /** Worker `k` took this message at this step. */
  predicate Takes(w: World, w': World, k: nat, id: string) {
    k < |w.workers| && k < |w'.workers| && w.workers[k].Idle? && w'.workers[k] == Holding(id)
  }

  /** Due, and within the age limit. */
  predicate MayStart(m: Message, now: Time) {
    && (m.nextAttempt.Some? ==> m.nextAttempt.value <= now)
    && (m.enqueuedAt.Some? ==> now <= m.enqueuedAt.value + 24 * HOUR)
  }

  /** Whatever a worker takes was queued, in nobody's hands, due, and not past the age limit. */
  lemma TakenIsDue(ws: seq<World>, es: seq<Event>, n: nat, id: string) returns (i: nat)
    requires |ws| == |es| + 1 && Run(ws, es) && n < |es| && es[n].Picked? && Takes(ws[n], ws[n + 1], es[n].k, id)
    ensures i < |ws[n].queue.pending| && ws[n].queue.pending[i].id == id && id !in ws[n].queue.inFlight
    ensures MayStart(ws[n].queue.pending[i], es[n].now)
  {
    hide Run, MayStart;
    Step(ws, es, n);
    i := ChosenIsDue(ws[n], es[n].k, es[n].now, es[n].answers, id);
  }

  lemma ChosenIsDue(w: World, k: nat, now: Time, answers: seq<Option<Time>>, id: string) returns (i: nat)
    requires k < |w.workers| && Takes(w, Choose(w, k, now, answers), k, id)
    ensures i < |w.queue.pending| && w.queue.pending[i].id == id && id !in w.queue.inFlight
    ensures MayStart(w.queue.pending[i], now)
  {
    hide MayStart, Keep, ExpiredIds, BestUpTo, Eligible;
    var q1 := Reap(w.queue, now);
    var best := ChoiceOf(w, k, now, answers, id);
    i := ReapedFrom(w.queue, now, best);
    EligibleStarts(q1, now, best);
  }

  /** What was taken is the scan's choice among the survivors of the reap. */
  lemma ChoiceOf(w: World, k: nat, now: Time, answers: seq<Option<Time>>, id: string) returns (best: nat)
    requires k < |w.workers| && Takes(w, Choose(w, k, now, answers), k, id)
    ensures var q1 := Reap(w.queue, now);
            best < |q1.pending| && Eligible(q1, now, best) && q1.pending[best].id == id
  {
    hide Keep, ExpiredIds, Eligible;
    var q1 := Reap(w.queue, now);
    best := BestUpTo(q1, now, answers, |q1.pending|).value;
  }

  lemma ReapedFrom(q: Queue, now: Time, j: nat) returns (i: nat)
    requires j < |Reap(q, now).pending|
    ensures i < |q.pending| && q.pending[i] == Reap(q, now).pending[j] && Reap(q, now).inFlight == q.inFlight
    ensures !Expired(q.pending[i], q.inFlight, now)
  {
    hide Reap, Keep, ExpiredIds, Expired;
    var gone := ExpiredIds(q.pending, q.inFlight, now);
    ExpiredAreListed(q.pending, q.inFlight, now);
    ReapKeeps(q, now);
    var at := KeepEmbeds(q.pending, gone);
    i := at[j];
  }

  lemma ReapKeeps(q: Queue, now: Time)
    ensures Reap(q, now).pending == Keep(q.pending, ExpiredIds(q.pending, q.inFlight, now))
    ensures Reap(q, now).inFlight == q.inFlight
  {
    KeepAll(q.pending);
  }

  lemma ExpiredAreListed(s: seq<Message>, inFlight: set<string>, now: Time)
    ensures forall i :: 0 <= i < |s| && Expired(s[i], inFlight, now) ==> s[i].id in ExpiredIds(s, inFlight, now)
  {
  }

  lemma EligibleStarts(q: Queue, now: Time, i: nat)
    requires i < |q.pending| && Eligible(q, now, i) && !Expired(q.pending[i], q.inFlight, now)
    ensures MayStart(q.pending[i], now) && q.pending[i].id !in q.inFlight
  {
  }

  /** The wait of a queued message, if it is queued. */
  predicate WaitsUntil(s: seq<Message>, id: string, t: Option<Time>) {
    forall i :: 0 <= i < |s| && s[i].id == id ==> s[i].nextAttempt == t
  }

  /** Is this the settlement of that message? */
  predicate Settles(w: World, e: Event, id: string) {
    e.Finished? && e.k < |w.workers| && w.workers[e.k].Busy() && w.workers[e.k].id == id
  }

  lemma WaitKept(s: seq<Message>, drop: set<string>, id: string, t: Option<Time>)
    requires WaitsUntil(s, id, t)
    ensures WaitsUntil(Keep(s, drop), id, t)
  {
    var at := KeepEmbeds(s, drop);
  }

  lemma WaitSettled(w: World, k: nat, hasNode: bool, id: string, t: Option<Time>)
    requires Enabled(w, Finished(k, hasNode)) && w.workers[k].id != id && WaitsUntil(w.queue.pending, id, t)
    ensures WaitsUntil(Settle(w, k, hasNode).queue.pending, id, t)
  {
    FinishPending(w.policy, w.queue, w.workers[k].id, w.workers[k].attempts, w.workers[k].outcome, hasNode, w.clock);
    WaitKept(w.queue.pending, {w.workers[k].id}, id, t);
  }

  lemma WaitPicked(w: World, k: nat, now: Time, answers: seq<Option<Time>>, id: string, t: Option<Time>)
    requires k < |w.workers| && WaitsUntil(w.queue.pending, id, t)
    ensures WaitsUntil(Choose(w, k, now, answers).queue.pending, id, t)
  {
    PickPending(w, k, now, answers);
    WaitKept(w.queue.pending, ExpiredIds(w.queue.pending, w.queue.inFlight, now), id, t);
  }

  lemma WaitStands(w: World, e: Event, id: string, t: Option<Time>)
    requires Enabled(w, e) && !e.Restarted? && !Settles(w, e, id)
    requires id in w.number && WaitsUntil(w.queue.pending, id, t)
    ensures WaitsUntil(Apply(w, e).queue.pending, id, t)
  {
    match e
    case Enqueued(_) =>
    case Picked(k, now, answers) => WaitPicked(w, k, now, answers, id, t);
    case Began(k) => StartPending(w, k);
    case SendReturned(_, _) =>
    case Finished(k, hasNode) => WaitSettled(w, k, hasNode, id, t);
    case _ => QuietFrame(w, e);
  }

  lemma {:induction false} WaitStandsOver(ws: seq<World>, es: seq<Event>, i: nat, n: nat, id: string, t: Option<Time>)
    requires |ws| == |es| + 1 && Run(ws, es) && i <= n < |ws| && OneProcess(es, i, n)
    requires id in ws[i].number && WaitsUntil(ws[i].queue.pending, id, t)
    requires forall u :: i <= u < n ==> !Settles(ws[u], es[u], id)
    ensures id in ws[n].number && WaitsUntil(ws[n].queue.pending, id, t)
  {
    hide Run, Apply, WaitsUntil;
    if i < n {
      WaitStandsOver(ws, es, i, n - 1, id, t);
      Step(ws, es, n - 1);
      NumbersGrow(ws[n - 1], es[n - 1]);
      WaitStands(ws[n - 1], es[n - 1], id, t);
    }
  }

  /** A message that a settlement left waiting is not taken again before its wait is over. */
  lemma NotBeforeItsTime(ws: seq<World>, es: seq<Event>, i: nat, n: nat, id: string, t: Time)
    requires |ws| == |es| + 1 && Run(ws, es) && i <= n < |es| && OneProcess(es, i, n)
    requires id in ws[i].number && WaitsUntil(ws[i].queue.pending, id, Some(t))
    requires forall u :: i <= u < n ==> !Settles(ws[u], es[u], id)
    requires es[n].Picked? && Takes(ws[n], ws[n + 1], es[n].k, id)
    ensures t <= es[n].now
  {
    hide Run, Apply;
    WaitStandsOver(ws, es, i, n, id, Some(t));
    var at := TakenIsDue(ws, es, n, id);
  }
}
