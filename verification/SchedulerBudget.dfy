/** The attempt budget in every interleaving: how often a message can be sent,
    what a deferral costs, and when a message may be given up. */
module SchedulerBudget {
  import opened Prelude
  import opened Outbound
  import opened Scheduler

  // ---- Sends in progress ---------------------------------------------------

  predicate WorkerOpens(x: Worker, open: map<string, int>) {
    && (x.Open() ==> x.id in open && x.attempts == open[x.id] + 1)
    && (x.Holding? ==> x.id !in open)
  }

  predicate MessageOpens(m: Message, workers: seq<Worker>, open: map<string, int>) {
    && (m.id in open ==> m.attempts == open[m.id] + 1)
    && (forall k :: 0 <= k < |workers| && workers[k].Open() && workers[k].id == m.id ==>
          workers[k].propagated == m.propagated)
  }

  predicate OpensIn(s: seq<Message>, workers: seq<Worker>, open: map<string, int>) {
    && (forall k :: 0 <= k < |workers| ==> WorkerOpens(workers[k], open))
    && (forall i :: 0 <= i < |s| ==> MessageOpens(s[i], workers, open))
  }

  /** A worker's private copy of the attempt count and route stays true of the
      queued message until the worker settles it. */
  predicate Opens(w: World) {
    && w.open.Keys <= w.queue.inFlight
    && OpensIn(w.queue.pending, w.workers, w.open)
  }

  lemma OpensKeep(s: seq<Message>, drop: set<string>, workers: seq<Worker>, open: map<string, int>)
    requires OpensIn(s, workers, open)
    ensures OpensIn(Keep(s, drop), workers, open)
  {
    var at := KeepEmbeds(s, drop);
  }

  lemma OpensByAccept(w: World, m: Message)
    requires Opens(w) && Exclusive(w) && Ordered(w) && m.id !in w.number
    ensures Opens(Accept(w, m))
  {
    assert Ids(w.queue.pending) <= w.number.Keys;
    OpensAppend(w.queue.pending, m, w.workers, w.open);
  }

  lemma OpensAppend(s: seq<Message>, m: Message, workers: seq<Worker>, open: map<string, int>)
    requires OpensIn(s, workers, open) && m.id !in open && m.id !in HeldIds(workers)
    ensures OpensIn(s + [m], workers, open)
  {
    assert forall k :: 0 <= k < |workers| && workers[k].Open() ==> workers[k].id in HeldIds(workers);
    assert MessageOpens(m, workers, open);
  }

  lemma OpensTakeUp(s: seq<Message>, workers: seq<Worker>, k: nat, id: string, open: map<string, int>)
    requires OpensIn(s, workers, open) && k < |workers| && id !in open
    ensures OpensIn(s, workers[k := Holding(id)], open)
  {
    var after := workers[k := Holding(id)];
    assert forall l :: 0 <= l < |workers| && l != k ==> after[l] == workers[l];
  }

  lemma OpensByPick(w: World, k: nat, now: Time, answers: seq<Option<Time>>)
    requires Opens(w) && k < |w.workers|
    ensures Opens(Choose(w, k, now, answers))
  {
    var gone := ExpiredIds(w.queue.pending, w.queue.inFlight, now);
    PickPending(w, k, now, answers);
    OpensKeep(w.queue.pending, gone, w.workers, w.open);
    var r := PickDue(w.queue, now, answers);
    if r.1.Some? {
      OpensTakeUp(r.0.pending, w.workers, k, r.0.pending[r.1.value].id, w.open);
    }
  }

  lemma OpensStart(s: seq<Message>, workers: seq<Worker>, k: nat, i: nat, open: map<string, int>)
    requires OpensIn(s, workers, open) && UniqueIds(s) && HoldApart(workers)
    requires k < |workers| && workers[k].Holding? && i < |s| && s[i].id == workers[k].id
    ensures var m := s[i];
            OpensIn(s[i := m.(attempts := m.attempts + 1)],
                    workers[k := Sending(m.id, m.attempts + 1, m.propagated)],
                    open[m.id := m.attempts])
  {
    var m := s[i];
    var after := workers[k := Sending(m.id, m.attempts + 1, m.propagated)];
    assert forall l :: 0 <= l < |workers| && l != k ==> after[l] == workers[l] && WorkerOpens(workers[l], open);
    assert forall j :: 0 <= j < |s| && j != i ==> s[j].id != m.id && MessageOpens(s[j], workers, open);
  }

  lemma OpensByStart(w: World, k: nat)
    requires Opens(w) && Exclusive(w) && UniqueIds(w.queue.pending) && Enabled(w, Began(k))
    ensures Opens(Start(w, k))
  {
    hide OpensIn;
    var s := w.queue.pending;
    var m := s[IndexOf(s, w.workers[k].id)];
    var w' := Start(w, k);
    assert w'.workers == w.workers[k := Sending(m.id, m.attempts + 1, m.propagated)];
    assert w'.open == w.open[m.id := m.attempts];
    assert w'.open.Keys <= w.queue.inFlight by {
      assert w.workers[k].id in HeldIds(w.workers);
    }
    OpensStart(s, w.workers, k, IndexOf(s, w.workers[k].id), w.open);
  }

  lemma OpensReturn(s: seq<Message>, workers: seq<Worker>, k: nat, o: Outcome, open: map<string, int>)
    requires OpensIn(s, workers, open) && k < |workers| && workers[k].Sending?
    ensures OpensIn(s, workers[k := Returned(workers[k].id, workers[k].attempts, workers[k].propagated, o)], open)
  {
    var after := workers[k := Returned(workers[k].id, workers[k].attempts, workers[k].propagated, o)];
    assert forall l :: 0 <= l < |workers| && l != k ==> after[l] == workers[l];
    assert WorkerOpens(workers[k], open);
  }

  lemma OpensFinish(s: seq<Message>, workers: seq<Worker>, k: nat, open: map<string, int>)
    requires OpensIn(s, workers, open) && HoldApart(workers) && k < |workers| && workers[k].Busy()
    ensures OpensIn(s, workers[k := Idle], open - {workers[k].id})
  {
    var after := workers[k := Idle];
    assert forall l :: 0 <= l < |workers| && l != k ==> after[l] == workers[l] && WorkerOpens(workers[l], open);
    assert forall i :: 0 <= i < |s| ==> MessageOpens(s[i], workers, open);
  }

  lemma OpensUpdate(s: seq<Message>, i: nat, m: Message, workers: seq<Worker>, open: map<string, int>)
    requires OpensIn(s, workers, open) && i < |s| && m.id == s[i].id && m.id !in open
    ensures OpensIn(s[i := m], workers, open)
  {
    assert forall k :: 0 <= k < |workers| ==> WorkerOpens(workers[k], open);
  }

  lemma OpensByFinish(w: World, k: nat, hasNode: bool)
    requires Opens(w) && Exclusive(w) && Enabled(w, Finished(k, hasNode))
    ensures Opens(Settle(w, k, hasNode))
  {
    var s, id := w.queue.pending, w.workers[k].id;
    var i := IndexOf(s, id);
    var v := Judge(w.policy, s[i], w.workers[k].attempts, w.workers[k].outcome, hasNode, w.clock);
    FinishPending(w.policy, w.queue, id, w.workers[k].attempts, w.workers[k].outcome, hasNode, w.clock);
    OpensFinish(s, w.workers, k, w.open);
    if v.Retry? {
      OpensUpdate(s, i, v.m, w.workers[k := Idle], w.open - {id});
    } else {
      OpensKeep(s, {id}, w.workers[k := Idle], w.open - {id});
    }
  }

  lemma KeepsOpens(w: World, e: Event)
    requires Opens(w) && Exclusive(w) && Ordered(w) && Enabled(w, e)
    ensures Opens(Apply(w, e))
  {
    hide OpensIn, Exclusive;
    OrderedUnique(w.queue.pending, w.number);
    match e
    case Enqueued(m) => OpensByAccept(w, m);
    case Picked(k, now, answers) => OpensByPick(w, k, now, answers);
    case Began(k) => OpensByStart(w, k);
    case SendReturned(k, o) => OpensReturn(w.queue.pending, w.workers, k, o, w.open);
    case Finished(k, hasNode) => OpensByFinish(w, k, hasNode);
    case Restarted(p) => OpensByBoot(w, p);
    case _ => QuietFrame(w, e);
  }

  lemma OpensByBoot(w: World, p: Policy)
    ensures Opens(Boot(w, p))
  {
  }

  // ---- The budget ----------------------------------------------------------

  /** Attempts already spent, not counting one in progress. */
  function Spent(m: Message, open: map<string, int>): int {
    if m.id in open then open[m.id] else m.attempts
  }

  /** How many more settled sends a message can still have. */
  function Remaining(p: Policy, spent: int, propagated: bool): int {
    Max(1, p.maxAttempts - spent) + if propagated then 0 else p.maxAttempts
  }

  /** One row of the account: `l` is the message as accepted, `n` its settled sends. */
  predicate Within(p: Policy, m: Message, l: Message, n: nat, spent: int) {
    && 0 <= spent
    && n + Remaining(p, spent, m.propagated) <= 2 * p.maxAttempts
    && (l.propagated ==> m.propagated)
    && (!m.propagated ==> n + l.attempts == spent)
    && (spent < p.maxAttempts || (n == 0 && spent == l.attempts))
  }

  predicate Row(p: Policy, m: Message, log: seq<Message>, number: map<string, nat>, sends: map<string, nat>,
                open: map<string, int>)
  {
    m.id in number && number[m.id] < |log| &&
    Within(p, m, log[number[m.id]], Count(sends, m.id), Spent(m, open))
  }

  predicate Rows(p: Policy, s: seq<Message>, log: seq<Message>, number: map<string, nat>, sends: map<string, nat>,
                 open: map<string, int>)
  {
    forall i :: 0 <= i < |s| ==> Row(p, s[i], log, number, sends, open)
  }

  predicate FatesWithin(p: Policy, fate: map<string, Fate>, sends: map<string, nat>) {
    forall id :: id in fate ==> Count(sends, id) <= 2 * p.maxAttempts
  }

  predicate Budgeted(w: World) {
    && w.policy.Valid()
    && Rows(w.policy, w.queue.pending, w.log, w.number, w.sends, w.open)
    && FatesWithin(w.policy, w.fate, w.sends)
  }

  lemma RowsKeep(p: Policy, s: seq<Message>, drop: set<string>, log: seq<Message>, number: map<string, nat>,
                 sends: map<string, nat>, open: map<string, int>)
    requires Rows(p, s, log, number, sends, open)
    ensures Rows(p, Keep(s, drop), log, number, sends, open)
  {
    var at := KeepEmbeds(s, drop);
  }

  lemma BudgetedByAccept(w: World, m: Message)
    requires Budgeted(w) && Ordered(w) && Exclusive(w) && Opens(w) && Enabled(w, Enqueued(m))
    ensures Budgeted(Accept(w, m))
  {
    if !Full(w.queue) {
      var w' := Accept(w, m);
      assert Ids(w.queue.pending) <= w.number.Keys;
      assert m.id !in w.open;
      assert Row(w.policy, m, w'.log, w'.number, w'.sends, w.open);
      forall i | 0 <= i < |w.queue.pending|
        ensures Row(w.policy, w.queue.pending[i], w'.log, w'.number, w'.sends, w.open)
      {
        assert Row(w.policy, w.queue.pending[i], w.log, w.number, w.sends, w.open);
      }
    }
  }

  lemma BudgetedByPick(w: World, k: nat, now: Time, answers: seq<Option<Time>>)
    requires Budgeted(w) && k < |w.workers|
    ensures Budgeted(Choose(w, k, now, answers))
  {
    var gone := ExpiredIds(w.queue.pending, w.queue.inFlight, now);
    PickPending(w, k, now, answers);
    RowsKeep(w.policy, w.queue.pending, gone, w.log, w.number, w.sends, w.open);
    forall id | id in gone
      ensures Count(w.sends, id) <= 2 * w.policy.maxAttempts
    {
      var i :| 0 <= i < |w.queue.pending| && w.queue.pending[i].id == id;
      assert Row(w.policy, w.queue.pending[i], w.log, w.number, w.sends, w.open);
    }
  }

  lemma RowsStart(p: Policy, s: seq<Message>, i: nat, log: seq<Message>, number: map<string, nat>,
                  sends: map<string, nat>, open: map<string, int>)
    requires Rows(p, s, log, number, sends, open) && UniqueIds(s) && i < |s| && s[i].id !in open
    ensures Rows(p, s[i := s[i].(attempts := s[i].attempts + 1)], log, number, sends, open[s[i].id := s[i].attempts])
  {
    var t := s[i := s[i].(attempts := s[i].attempts + 1)];
    forall j | 0 <= j < |s|
      ensures Row(p, t[j], log, number, sends, open[s[i].id := s[i].attempts])
    {
      assert Row(p, s[j], log, number, sends, open);
    }
  }

  lemma BudgetedByStart(w: World, k: nat)
    requires Budgeted(w) && UniqueIds(w.queue.pending) && Opens(w) && Enabled(w, Began(k))
    ensures Budgeted(Start(w, k))
  {
    var s := w.queue.pending;
    assert WorkerOpens(w.workers[k], w.open);
    RowsStart(w.policy, s, IndexOf(s, w.workers[k].id), w.log, w.number, w.sends, w.open);
  }

  /** One settled send: it spends nothing when deferred, and otherwise one unit
      of a budget that never goes below zero. */
  lemma JudgeWithin(p: Policy, m: Message, l: Message, n: nat, attempts: int, o: Outcome, hasNode: bool, now: Time)
    requires p.Valid() && Within(p, m, l, n, attempts - 1) && m.attempts == attempts
    ensures var v := Judge(p, m, attempts, o, hasNode, now);
            var n' := if o.Deferral() then n else n + 1;
            && n' <= 2 * p.maxAttempts
            && (v.Retry? ==> Within(p, v.m, l, n', v.m.attempts))
  {
  }

  lemma RowsUpdate(p: Policy, s: seq<Message>, i: nat, m: Message, n: nat, log: seq<Message>,
                   number: map<string, nat>, sends: map<string, nat>, open: map<string, int>)
    requires Rows(p, s, log, number, sends, open) && UniqueIds(s) && i < |s| && m.id == s[i].id
    requires Within(p, m, log[number[m.id]], n, m.attempts)
    ensures Rows(p, s[i := m], log, number, sends[m.id := n], open - {m.id})
  {
    var t := s[i := m];
    forall j | 0 <= j < |s|
      ensures Row(p, t[j], log, number, sends[m.id := n], open - {m.id})
    {
      assert Row(p, s[j], log, number, sends, open);
    }
  }

  lemma RowsDrop(p: Policy, s: seq<Message>, id: string, n: nat, log: seq<Message>, number: map<string, nat>,
                 sends: map<string, nat>, open: map<string, int>)
    requires Rows(p, s, log, number, sends, open)
    ensures Rows(p, Keep(s, {id}), log, number, sends[id := n], open - {id})
  {
    var at := KeepEmbeds(s, {id});
    forall j | 0 <= j < |Keep(s, {id})|
      ensures Row(p, Keep(s, {id})[j], log, number, sends[id := n], open - {id})
    {
      assert Row(p, s[at[j]], log, number, sends, open);
    }
  }

  lemma RowsSameSends(p: Policy, s: seq<Message>, id: string, log: seq<Message>, number: map<string, nat>,
                      sends: map<string, nat>, open: map<string, int>)
    requires Rows(p, s, log, number, sends[id := Count(sends, id)], open)
    ensures Rows(p, s, log, number, sends, open)
  {
    forall j | 0 <= j < |s|
      ensures Row(p, s[j], log, number, sends, open)
    {
      assert Row(p, s[j], log, number, sends[id := Count(sends, id)], open);
    }
  }

  /** The queue half of a settlement, as an account. */
  lemma RowsFinish(p: Policy, q: Queue, id: string, attempts: int, o: Outcome, hasNode: bool, now: Time,
                   log: seq<Message>, number: map<string, nat>, sends: map<string, nat>, open: map<string, int>)
    requires p.Valid() && UniqueIds(q.pending) && id in Ids(q.pending)
    requires Rows(p, q.pending, log, number, sends, open)
    requires id in open && attempts == open[id] + 1 && q.pending[IndexOf(q.pending, id)].attempts == attempts
    ensures var n := if o.Deferral() then Count(sends, id) else Count(sends, id) + 1;
            && n <= 2 * p.maxAttempts
            && Rows(p, Finish(p, q, id, attempts, o, hasNode, now).pending, log, number, sends[id := n], open - {id})
  {
    var i := IndexOf(q.pending, id);
    var m := q.pending[i];
    assert Row(p, m, log, number, sends, open);
    JudgeWithin(p, m, log[number[id]], Count(sends, id), attempts, o, hasNode, now);
    FinishPending(p, q, id, attempts, o, hasNode, now);
    var n := if o.Deferral() then Count(sends, id) else Count(sends, id) + 1;
    var v := Judge(p, m, attempts, o, hasNode, now);
    if v.Retry? {
      RowsUpdate(p, q.pending, i, v.m, n, log, number, sends, open);
    } else {
      RowsDrop(p, q.pending, id, n, log, number, sends, open);
    }
  }

  lemma BudgetedByFinish(w: World, k: nat, hasNode: bool)
    requires Budgeted(w) && UniqueIds(w.queue.pending) && Opens(w) && Conserved(w) && Enabled(w, Finished(k, hasNode))
    ensures Budgeted(Settle(w, k, hasNode))
  {
    hide Rows, Judge;
    var Returned(id, attempts, _, o) := w.workers[k];
    var s := w.queue.pending;
    assert WorkerOpens(w.workers[k], w.open) && MessageOpens(s[IndexOf(s, id)], w.workers, w.open);
    RowsFinish(w.policy, w.queue, id, attempts, o, hasNode, w.clock, w.log, w.number, w.sends, w.open);
    if o.Deferral() {
      RowsSameSends(w.policy, Settle(w, k, hasNode).queue.pending, id, w.log, w.number, w.sends, w.open - {id});
    }
  }

  lemma BudgetedByBoot(w: World, p: Policy)
    requires p.Valid() && UniqueIds(w.disk) && forall i :: 0 <= i < |w.disk| ==> w.disk[i].attempts >= 0
    ensures Budgeted(Boot(w, p))
  {
    LoadFacts(p, w.disk);
    RowsBoot(p, Load(p, w.disk));
  }

  lemma RowsBoot(p: Policy, s: seq<Message>)
    requires p.Valid() && UniqueIds(s) && forall i :: 0 <= i < |s| ==> s[i].attempts >= 0
    ensures Rows(p, s, s, Numbering(s), map id | id in Ids(s) :: 0, map[])
  {
    NumberingOrdered(s);
    forall i | 0 <= i < |s|
      ensures Row(p, s[i], s, Numbering(s), map id | id in Ids(s) :: 0, map[])
    {
      assert Numbering(s)[s[i].id] == i;
      assert Within(p, s[i], s[i], 0, s[i].attempts);
    }
  }

  lemma KeepsBudgeted(w: World, e: Event)
    requires Budgeted(w) && Ordered(w) && Exclusive(w) && Opens(w) && Conserved(w) && Enabled(w, e)
    requires UniqueIds(w.disk) && forall i :: 0 <= i < |w.disk| ==> w.disk[i].attempts >= 0
    ensures Budgeted(Apply(w, e))
  {
    match e
    case Enqueued(m) => BudgetedByAccept(w, m);
    case Picked(k, now, answers) => BudgetedByPick(w, k, now, answers);
    case Began(k) => BudgetedByStart(w, k);
    case Finished(k, hasNode) => BudgetedByFinish(w, k, hasNode);
    case Restarted(p) => BudgetedByBoot(w, p);
    case SendReturned(_, _) =>
    case _ => QuietFrame(w, e);
  }
}
