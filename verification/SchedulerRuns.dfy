/** What holds of the outbound queue over whole runs: any number of workers, any
    interleaving, any outcomes, saves that fail, crashes at any point. */
module SchedulerRuns {
  import opened Prelude
  import opened Outbound
  import opened Scheduler
  import opened SchedulerOrder
  import opened SchedulerBudget
  import opened SchedulerDisk

  ghost predicate Inv(w: World) {
    && Ordered(w) && Exclusive(w) && Conserved(w)
    && Faithful(w) && PinsLast(w)
    && Opens(w) && Budgeted(w)
    && Durable(w)
  }

  predicate Run(ws: seq<World>, es: seq<Event>) {
    && |ws| == |es| + 1
    && Init(ws[0])
    && (forall i {:trigger es[i]} :: 0 <= i < |es| ==> Enabled(ws[i], es[i]) && ws[i + 1] == Apply(ws[i], es[i]))
  }

  lemma IdleBoot(w: World, p: Policy)
    ensures var b := Boot(w, p);
            Exclusive(b) && Conserved(b) && PinsLast(b) && Opens(b)
  {
  }

  lemma InitInv(w: World)
    requires Init(w)
    ensures Inv(w)
  {
    IdleBoot(w, w.policy);
    OrderedByBoot(w, w.policy);
    FaithfulByBoot(w, w.policy);
    BudgetedByBoot(w, w.policy);
    DurableByBoot(w, w.policy);
  }

  lemma StepInv(w: World, e: Event)
    requires Inv(w) && Enabled(w, e)
    ensures Inv(Apply(w, e))
  {
    KeepsOrdered(w, e);
    KeepsExclusive(w, e);
    KeepsConserved(w, e);
    KeepsFaithful(w, e);
    KeepsPinsLast(w, e);
    KeepsOpens(w, e);
    KeepsBudgeted(w, e);
    KeepsDurable(w, e);
  }

  lemma Step(ws: seq<World>, es: seq<Event>, i: nat)
    requires Run(ws, es) && i < |es|
    ensures Enabled(ws[i], es[i]) && ws[i + 1] == Apply(ws[i], es[i])
  {
  }

  lemma {:induction false} Reachable(ws: seq<World>, es: seq<Event>, n: nat)
    requires Run(ws, es) && n < |ws|
    ensures Inv(ws[n])
  {
    if n == 0 {
      InitInv(ws[0]);
    } else {
      Reachable(ws, es, n - 1);
      StepInv(ws[n - 1], es[n - 1]);
    }
  }

  // ---- Safety of the queue -------------------------------------------------

  /** At every moment of every run: no two workers hold one message, every held
      message is queued, the queue is in acceptance order, and an accepted message
      is queued or has exactly one fate. */
  lemma QueueSafety(ws: seq<World>, es: seq<Event>, n: nat)
    requires Run(ws, es) && n < |ws|
    ensures var w := ws[n]; var s := w.queue.pending;
            && (forall k, l :: 0 <= k < l < |w.workers| && w.workers[k].Busy() && w.workers[l].Busy() ==>
                  w.workers[k].id != w.workers[l].id)
            && w.queue.inFlight == HeldIds(w.workers) && w.queue.inFlight <= Ids(s)
            && (forall k :: 0 <= k < |w.workers| && w.workers[k].Busy() ==>
                  w.workers[k].id in w.queue.inFlight && w.workers[k].id in Ids(s))
            && (forall i, j :: 0 <= i < j < |s| ==>
                  s[i].id in w.number && s[j].id in w.number && w.number[s[i].id] < w.number[s[j].id])
            && (forall id :: id in w.number <==> (id in Ids(s) <==> id !in w.fate) && (id in Ids(s) || id in w.fate))
  {
    Reachable(ws, es, n);
    var w := ws[n];
    assert forall k :: 0 <= k < |w.workers| && w.workers[k].Busy() ==> w.workers[k].id in HeldIds(w.workers);
  }

  // ---- Pins after the replay -----------------------------------------------

  predicate OneProcess(es: seq<Event>, a: nat, b: nat)
    requires a <= b <= |es|
  {
    forall i :: a <= i < b ==> !es[i].Restarted?
  }

  lemma LogGrowsOnce(w: World, e: Event)
    requires Enabled(w, e) && !e.Restarted?
    ensures w.log <= Apply(w, e).log
  {
    match e
    case Enqueued(_) =>
    case Picked(_, _, _) =>
    case Began(_) =>
    case SendReturned(_, _) =>
    case Finished(_, _) =>
    case _ => QuietFrame(w, e);
  }

  lemma {:induction false} LogGrows(ws: seq<World>, es: seq<Event>, a: nat, b: nat)
    requires Run(ws, es) && a <= b < |ws| && OneProcess(es, a, b)
    ensures ws[a].log <= ws[b].log
  {
    if a < b {
      LogGrows(ws, es, a, b - 1);
      Step(ws, es, b - 1);
      LogGrowsOnce(ws[b - 1], es[b - 1]);
    }
  }

  lemma AcceptLogs(w: World, m: Message)
    requires Enabled(w, Enqueued(m)) && !Full(w.queue)
    ensures Apply(w, Enqueued(m)).log == w.log + [m]
  {
  }

  /** The join catch-up: a replay message is accepted at step `i`, the pinned list
      (flagged, same joiner) at step `j`. From then on, whenever the pins are in a
      worker's hands or have ever begun to be sent, the replay message is out of
      the queue and no worker is sending it. */
  lemma PinsWithinProcess(ws: seq<World>, es: seq<Event>, i: nat, j: nat, n: nat)
    requires Run(ws, es) && i < j < n < |ws| && OneProcess(es, i, n)
    requires es[i].Enqueued? && !Full(ws[i].queue)
    requires es[j].Enqueued? && !Full(ws[j].queue)
    requires es[j].m.afterEarlier && es[j].m.recipient == es[i].m.recipient
    ensures es[j].m.id in ws[n].queue.inFlight + ws[n].begun ==>
              && es[i].m.id !in Ids(ws[n].queue.pending)
              && (forall k :: 0 <= k < |ws[n].workers| && ws[n].workers[k].Busy() ==> ws[n].workers[k].id != es[i].m.id)
  {
    hide Ordered, Conserved, Faithful, Opens, Budgeted, Durable;
    hide Apply;
    Reachable(ws, es, n);
    Step(ws, es, i);
    AcceptLogs(ws[i], es[i].m);
    LogGrows(ws, es, i + 1, j);
    Step(ws, es, j);
    AcceptLogs(ws[j], es[j].m);
    LogGrows(ws, es, j + 1, n);
    var a, b := |ws[i].log|, |ws[j].log|;
    assert WaitsFor(ws[n].log, a, b);
    var w := ws[n];
    assert forall k :: 0 <= k < |w.workers| && w.workers[k].Busy() ==> w.workers[k].id in HeldIds(w.workers);
  }

  // ---- Budget --------------------------------------------------------------

  /** No message is ever sent more than twice the attempt budget, deferrals aside. */
  lemma SendsBounded(ws: seq<World>, es: seq<Event>, n: nat, id: string)
    requires Run(ws, es) && n < |ws| && id in ws[n].number
    ensures Count(ws[n].sends, id) <= 2 * ws[n].policy.maxAttempts
  {
    Reachable(ws, es, n);
    var w := ws[n];
    if id in Ids(w.queue.pending) {
      var i :| 0 <= i < |w.queue.pending| && w.queue.pending[i].id == id;
      assert Row(w.policy, w.queue.pending[i], w.log, w.number, w.sends, w.open);
    }
  }

  /** The queue half of a settlement, where the message stands afterwards. */
  lemma FinishEntry(p: Policy, q: Queue, id: string, attempts: int, o: Outcome, hasNode: bool, now: Time)
    requires UniqueIds(q.pending) && id in Ids(q.pending)
    ensures var v := Judge(p, q.pending[IndexOf(q.pending, id)], attempts, o, hasNode, now);
            var s' := Finish(p, q, id, attempts, o, hasNode, now).pending;
            && (id in Ids(s') <==> v.Retry?)
            && (v.Retry? ==> s'[IndexOf(s', id)] == v.m)
  {
    var i := IndexOf(q.pending, id);
    var v := Judge(p, q.pending[i], attempts, o, hasNode, now);
    FinishPending(p, q, id, attempts, o, hasNode, now);
    FinishIds(p, q, id, attempts, o, hasNode, now);
    if v.Retry? {
      IndexUpdated(q.pending, i, v.m);
    }
  }

  lemma JudgeProgress(p: Policy, m: Message, attempts: int, o: Outcome, hasNode: bool, now: Time)
    requires m.attempts == attempts && !o.Sent? && !o.Deferral()
    ensures var v := Judge(p, m, attempts, o, hasNode, now);
            v.Retry? ==>
              || (!m.propagated && v.m.propagated)
              || (m.propagated == v.m.propagated && v.m.attempts == attempts < p.maxAttempts)
  {
  }

  /** A failed send that is not a deferral removes the message, moves it to the
      propagation route, or leaves strictly fewer attempts. */
  lemma FailureProgress(ws: seq<World>, es: seq<Event>, n: nat, k: nat)
    requires Run(ws, es) && n < |es| && es[n].Finished? && es[n].k == k
    requires !ws[n].workers[k].outcome.Sent? && !ws[n].workers[k].outcome.Deferral()
    ensures var w := ws[n];
            var id := w.workers[k].id;
            var m := w.queue.pending[IndexOf(w.queue.pending, id)];
            var s' := ws[n + 1].queue.pending;
            && (id in Ids(s') ==>
                  var m' := s'[IndexOf(s', id)];
                  || (!m.propagated && m'.propagated)
                  || (m.propagated == m'.propagated &&
                      0 < w.policy.maxAttempts - m'.attempts < w.policy.maxAttempts - Spent(m, w.open)))
  {
    Reachable(ws, es, n);
    Step(ws, es, n);
    var w := ws[n];
    var x := w.workers[k];
    var i := IndexOf(w.queue.pending, x.id);
    OpenEntry(w, k, i);
    FinishEntry(w.policy, w.queue, x.id, x.attempts, x.outcome, es[n].hasNode, w.clock);
    JudgeProgress(w.policy, w.queue.pending[i], x.attempts, x.outcome, es[n].hasNode, w.clock);
  }

  lemma OpenEntry(w: World, k: nat, i: nat)
    requires Opens(w) && k < |w.workers| && w.workers[k].Open()
    requires i < |w.queue.pending| && w.queue.pending[i].id == w.workers[k].id
    ensures w.workers[k].id in w.open
    ensures w.queue.pending[i].attempts == w.workers[k].attempts == w.open[w.workers[k].id] + 1
    ensures w.queue.pending[i].propagated == w.workers[k].propagated
  {
    assert WorkerOpens(w.workers[k], w.open) && MessageOpens(w.queue.pending[i], w.workers, w.open);
  }

  lemma IndexUpdated(s: seq<Message>, i: nat, m: Message)
    requires i < |s| && m.id == s[i].id && UniqueIds(s)
    ensures m.id in Ids(s[i := m]) && IndexOf(s[i := m], m.id) == i
  {
    UpdateKeepsIds(s, i, m);
    assert s[i].id in Ids(s);
    assert forall j :: 0 <= j < |s| && j != i ==> s[j].id != s[i].id;
  }

  lemma JudgeGivesUp(p: Policy, m: Message, l: Message, n: nat, attempts: int, o: Outcome, hasNode: bool, now: Time)
    requires p.Valid() && Within(p, m, l, n, attempts - 1) && Judge(p, m, attempts, o, hasNode, now).BudgetFailed?
    ensures attempts >= p.maxAttempts && !o.Deferral()
    ensures m.propagated || !p.fallback || !hasNode
    ensures !m.propagated && l.attempts == 0 ==> n + 1 == p.maxAttempts
  {
  }

  lemma FateIsJudged(w: World, k: nat, hasNode: bool)
    requires Enabled(w, Finished(k, hasNode))
    ensures var x := w.workers[k];
            var m := w.queue.pending[IndexOf(w.queue.pending, x.id)];
            var w' := Settle(w, k, hasNode);
            && (x.id in w'.fate && x.id !in w.fate && w'.fate[x.id].WasBudgetFailed? ==>
                  Judge(w.policy, m, x.attempts, x.outcome, hasNode, w.clock).BudgetFailed?)
            && Count(w'.sends, x.id) == Count(w.sends, x.id) + if x.outcome.Deferral() then 0 else 1
  {
  }

  lemma RowOf(w: World, i: nat)
    requires Budgeted(w) && i < |w.queue.pending|
    ensures Row(w.policy, w.queue.pending[i], w.log, w.number, w.sends, w.open)
  {
  }

  /** A message is given up for its budget only after `maxAttempts` attempts and
      only when, at that moment, there is no other route to try. If it was accepted
      as a fresh direct message it has had exactly `maxAttempts` settled sends. */
  lemma GiveUpOnlyWhenSpent(ws: seq<World>, es: seq<Event>, n: nat, k: nat)
    requires Run(ws, es) && n < |es| && es[n].Finished? && es[n].k == k
    requires var id := ws[n].workers[k].id;
             id in ws[n + 1].fate && id !in ws[n].fate && ws[n + 1].fate[id].WasBudgetFailed?
    ensures var w := ws[n];
            var m := w.queue.pending[IndexOf(w.queue.pending, w.workers[k].id)];
            && w.workers[k].attempts >= w.policy.maxAttempts
            && (m.propagated || !w.policy.fallback || !es[n].hasNode)
            && m.id in w.number && w.number[m.id] < |w.log|
            && (!m.propagated && w.log[w.number[m.id]].attempts == 0 ==>
                  Count(ws[n + 1].sends, m.id) == w.policy.maxAttempts)
  {
    hide Judge, Rows, Ordered, Exclusive, Conserved, Faithful, PinsLast, Durable;
    Reachable(ws, es, n);
    Step(ws, es, n);
    var w := ws[n];
    var x := w.workers[k];
    var i := IndexOf(w.queue.pending, x.id);
    var m := w.queue.pending[i];
    OpenEntry(w, k, i);
    RowOf(w, i);
    FateIsJudged(w, k, es[n].hasNode);
    JudgeGivesUp(w.policy, m, w.log[w.number[m.id]], Count(w.sends, m.id), x.attempts, x.outcome, es[n].hasNode,
      w.clock);
  }

  /** Which worker an event belongs to. */
  function Actor(e: Event): Option<nat> {
    match e
    case Picked(k, _, _) => Some(k)
    case Began(k) => Some(k)
    case SendReturned(k, _) => Some(k)
    case Finished(k, _) => Some(k)
    case _ => None
  }

  predicate SameErrand(x: Worker, y: Worker) {
    x.Open() && y.Open() && x.id == y.id && x.attempts == y.attempts
  }

  /** An event moves no worker but its own. */
  lemma OthersStand(w: World, e: Event, k: nat)
    requires Enabled(w, e) && !e.Restarted? && k < |w.workers| && Actor(e) != Some(k)
    ensures k < |Apply(w, e).workers| && Apply(w, e).workers[k] == w.workers[k]
  {
    match e
    case Enqueued(_) =>
    case Picked(_, _, _) =>
    case Began(_) =>
    case SendReturned(_, _) =>
    case Finished(_, _) =>
    case _ => QuietFrame(w, e);
  }

  lemma ErrandKept(w: World, e: Event, k: nat)
    requires Enabled(w, e) && !e.Restarted? && k < |w.workers| && w.workers[k].Open()
    requires Actor(e) != Some(k) || e.SendReturned?
    ensures k < |Apply(w, e).workers| && SameErrand(w.workers[k], Apply(w, e).workers[k])
  {
    if Actor(e) != Some(k) {
      OthersStand(w, e, k);
    }
  }

  lemma {:induction false} ErrandRuns(ws: seq<World>, es: seq<Event>, a: nat, b: nat, k: nat)
    requires Run(ws, es) && a <= b < |ws| && OneProcess(es, a, b)
    requires k < |ws[a].workers| && ws[a].workers[k].Open()
    requires forall i :: a <= i < b ==> Actor(es[i]) != Some(k) || es[i].SendReturned?
    ensures k < |ws[b].workers| && SameErrand(ws[a].workers[k], ws[b].workers[k])
  {
    if a < b {
      ErrandRuns(ws, es, a, b - 1, k);
      Step(ws, es, b - 1);
      ErrandKept(ws[b - 1], es[b - 1], k);
    }
  }

  /** A deferral costs nothing: whatever the other workers did between the start
      of the send (step `i`) and its settlement (step `j`), the message is queued
      again with exactly the attempts it had before. */
  lemma DeferralIsFree(ws: seq<World>, es: seq<Event>, i: nat, j: nat, k: nat)
    requires Run(ws, es) && i < j < |es| && OneProcess(es, i, j)
    requires es[i] == Began(k) && es[j].Finished? && es[j].k == k
    requires forall t :: i < t < j ==> Actor(es[t]) != Some(k) || es[t].SendReturned?
    requires ws[j].workers[k].outcome.Deferral()
    ensures var id := ws[i].workers[k].id;
            var before := ws[i].queue.pending;
            var after := ws[j + 1].queue.pending;
            && id in Ids(after)
            && after[IndexOf(after, id)].attempts == before[IndexOf(before, id)].attempts
            && Count(ws[j + 1].sends, id) == Count(ws[j].sends, id)
  {
    hide Inv, Apply;
    Step(ws, es, i);
    Step(ws, es, j);
    SendBegins(ws[i], k);
    ErrandRuns(ws, es, i + 1, j, k);
    Reachable(ws, es, j);
    Uniquely(ws[j]);
    DeferralSettles(ws[j], k, es[j].hasNode);
  }

  lemma Uniquely(w: World)
    requires Inv(w)
    ensures UniqueIds(w.queue.pending) && Opens(w)
  {
    OrderedUnique(w.queue.pending, w.number);
  }

  lemma SendBegins(w: World, k: nat)
    requires Enabled(w, Began(k))
    ensures var x := Apply(w, Began(k)).workers;
            && k < |x| && x[k].Open() && x[k].id == w.workers[k].id
            && x[k].attempts == w.queue.pending[IndexOf(w.queue.pending, x[k].id)].attempts + 1
  {
  }

  /** A settled deferral leaves the message queued with the attempt handed back. */
  lemma DeferralSettles(w: World, k: nat, hasNode: bool)
    requires UniqueIds(w.queue.pending) && Opens(w)
    requires Enabled(w, Finished(k, hasNode)) && w.workers[k].outcome.Deferral()
    ensures var x := w.workers[k];
            var w' := Apply(w, Finished(k, hasNode));
            var after := w'.queue.pending;
            && x.id in Ids(after) && after[IndexOf(after, x.id)].attempts == x.attempts - 1
            && Count(w'.sends, x.id) == Count(w.sends, x.id)
  {
    var x := w.workers[k];
    OpenEntry(w, k, IndexOf(w.queue.pending, x.id));
    FinishEntry(w.policy, w.queue, x.id, x.attempts, x.outcome, hasNode, w.clock);
    FateIsJudged(w, k, hasNode);
  }

  // ---- Route ---------------------------------------------------------------

  predicate OnPropagation(s: seq<Message>, id: string) {
    forall i :: 0 <= i < |s| && s[i].id == id ==> s[i].propagated
  }

  lemma RouteKeep(s: seq<Message>, drop: set<string>, id: string)
    requires OnPropagation(s, id)
    ensures OnPropagation(Keep(s, drop), id)
  {
    var at := KeepEmbeds(s, drop);
  }

  lemma RouteFinish(p: Policy, q: Queue, done: string, attempts: int, o: Outcome, hasNode: bool, now: Time, id: string)
    requires done in Ids(q.pending) && OnPropagation(q.pending, id)
    ensures OnPropagation(Finish(p, q, done, attempts, o, hasNode, now).pending, id)
  {
    FinishPending(p, q, done, attempts, o, hasNode, now);
    RouteKeep(q.pending, {done}, id);
  }

  lemma RoutePick(w: World, k: nat, now: Time, answers: seq<Option<Time>>, id: string)
    requires k < |w.workers| && OnPropagation(w.queue.pending, id)
    ensures OnPropagation(Choose(w, k, now, answers).queue.pending, id)
  {
    PickPending(w, k, now, answers);
    RouteKeep(w.queue.pending, ExpiredIds(w.queue.pending, w.queue.inFlight, now), id);
  }

  lemma RouteSticksOnce(w: World, e: Event, id: string)
    requires Enabled(w, e) && !e.Restarted? && id in w.number && OnPropagation(w.queue.pending, id)
    ensures id in Apply(w, e).number && OnPropagation(Apply(w, e).queue.pending, id)
  {
    match e
    case Picked(k, now, answers) => RoutePick(w, k, now, answers, id);
    case Finished(k, hasNode) =>
      RouteFinish(w.policy, w.queue, w.workers[k].id, w.workers[k].attempts, w.workers[k].outcome, hasNode, w.clock,
        id);
    case Enqueued(_) =>
    case Began(k) => StartPending(w, k);
    case SendReturned(_, _) =>
    case _ => QuietFrame(w, e);
  }

  /** Within one process a message changes route at most once, direct to propagated. */
  lemma {:induction false} RouteSticks(ws: seq<World>, es: seq<Event>, a: nat, b: nat, id: string)
    requires Run(ws, es) && a <= b < |ws| && OneProcess(es, a, b)
    requires id in ws[a].number && OnPropagation(ws[a].queue.pending, id)
    ensures id in ws[b].number && OnPropagation(ws[b].queue.pending, id)
  {
    if a < b {
      RouteSticks(ws, es, a, b - 1, id);
      Step(ws, es, b - 1);
      RouteSticksOnce(ws[b - 1], es[b - 1], id);
    }
  }

  // ---- Disk ----------------------------------------------------------------

  /** Whenever nothing is marked dirty and no save is running, a restart under the
      same policy would rebuild the current queue: same messages, same order, equal
      up to the in-memory fields and the attempt count of messages being sent. Entries
      whose recipient is no address are the ones `Load` refuses. */
  lemma FileIsCurrent(ws: seq<World>, es: seq<Event>, n: nat)
    requires Run(ws, es) && n < |ws|
    requires !ws[n].queue.dirty && !ws[n].flusher.Saving?
    ensures var w := ws[n];
            && Mirrors(Boot(w, w.policy).queue.pending, Load(w.policy, w.queue.pending), w.queue.inFlight)
            && ((forall i :: 0 <= i < |w.queue.pending| ==> WellFormed(w.queue.pending[i])) ==>
                  Mirrors(Boot(w, w.policy).queue.pending, w.queue.pending, w.queue.inFlight))
  {
    Reachable(ws, es, n);
    if forall i :: 0 <= i < |ws[n].queue.pending| ==> WellFormed(ws[n].queue.pending[i]) {
      LoadIdentity(ws[n].policy, ws[n].queue.pending);
    }
  }

  /** An unwritten change is always accounted for: a wake-up is pending, the
      flusher has taken one and not yet looked, or a save has failed since. */
  lemma DirtyHasCause(ws: seq<World>, es: seq<Event>, n: nat)
    requires Run(ws, es) && n < |ws| && ws[n].queue.dirty
    ensures ws[n].queue.kicked || ws[n].flusher.Delaying? || ws[n].saveFailed
  {
    Reachable(ws, es, n);
  }

  /** No workers, no messages, an empty file. */
  function Nothing(p: Policy): World {
    World(p, Queue([], {}, false, false, 0), [], 0, [], Waiting, false, [], map[], map[], map[], map[], {})
  }

  lemma StartsEmpty(p: Policy)
    requires p.Valid()
    ensures Init(Nothing(p))
  {
    assert Nothing(p) == Boot(Nothing(p), p);
  }

  /** The third cause is real: after a failed save the queue can sit dirty with no
      wake-up pending and the flusher asleep, so no retry is scheduled until the
      next change or shutdown. */
  lemma FailedSaveIsNotRetried(p: Policy, m: Message)
    returns (ws: seq<World>, es: seq<Event>)
    requires p.Valid() && IsNew(p, m) && m.enqueuedAt.value <= 0
    ensures Run(ws, es)
    ensures var w := ws[|es|];
            && w.queue.dirty && w.queue.pending == [m] && w.disk == []
            && !Enabled(w, KickTaken) && !Enabled(w, SnapshotTaken)
  {
    hide Boot, Init;
    var w0 := Nothing(p);
    StartsEmpty(p);
    var w1 := Apply(w0, Enqueued(m));
    var w2 := Apply(w1, KickTaken);
    var w3 := Apply(w2, SnapshotTaken);
    var w4 := Apply(w3, SaveErred);
    ws, es := [w0, w1, w2, w3, w4], [Enqueued(m), KickTaken, SnapshotTaken, SaveErred];
  }

  // ---- Progress ------------------------------------------------------------

  /** With every worker idle and every wait over, a pick yields a message unless
      the reap has just emptied the queue. */
  lemma IdleWorkersFindWork(ws: seq<World>, es: seq<Event>, n: nat, now: Time, answers: seq<Option<Time>>)
    requires Run(ws, es) && n < |ws|
    requires forall k :: 0 <= k < |ws[n].workers| ==> ws[n].workers[k].Idle?
    requires forall i :: 0 <= i < |ws[n].queue.pending| && ws[n].queue.pending[i].nextAttempt.Some? ==>
                           ws[n].queue.pending[i].nextAttempt.value <= now
    ensures PickDue(ws[n].queue, now, answers).1.Some? <==> Reap(ws[n].queue, now).pending != []
  {
    Reachable(ws, es, n);
    NeverWedges(ws[n].queue, now, answers);
  }
}
