/** Coalesced persistence in every interleaving: when the queue file is current,
    and what guarantees that it becomes so. */
module SchedulerDisk {
  import opened Prelude
  import opened Outbound
  import opened Scheduler
  import opened SchedulerBudget

  /** `a` on file stands for `b` in memory: equal up to the fields JSON omits
      and, while `b` is being sent, its attempt count. */
  predicate Alike(a: Message, b: Message, inFlight: set<string>) {
    && a.id == b.id && a.recipient == b.recipient && a.body == b.body
    && a.nextAttempt == b.nextAttempt && a.enqueuedAt == b.enqueuedAt
    && a.propagated == b.propagated && a.afterEarlier == b.afterEarlier
    && (a.attempts == b.attempts || b.id in inFlight)
  }

  predicate Mirrors(file: seq<Message>, live: seq<Message>, inFlight: set<string>) {
    && |file| == |live|
    && (forall i :: 0 <= i < |file| ==> Alike(file[i], live[i], inFlight))
  }

  lemma {:induction false} LoadMirrors(p: Policy, a: seq<Message>, b: seq<Message>, inFlight: set<string>)
    requires Mirrors(a, b, inFlight)
    ensures Mirrors(Load(p, a), Load(p, b), inFlight)
  {
    if |a| != 0 {
      LoadMirrors(p, a[..|a| - 1], b[..|b| - 1], inFlight);
      assert Alike(a[|a| - 1], b[|b| - 1], inFlight);
    }
  }

  lemma MirrorsTransitive(a: seq<Message>, b: seq<Message>, c: seq<Message>, inFlight: set<string>)
    requires Mirrors(a, b, inFlight) && Mirrors(b, c, inFlight)
    ensures Mirrors(a, c, inFlight)
  {
    forall i | 0 <= i < |a|
      ensures Alike(a[i], c[i], inFlight)
    {
      assert Alike(a[i], b[i], inFlight) && Alike(b[i], c[i], inFlight);
    }
  }

  /** Entries that need neither dropping nor demoting load as themselves. */
  lemma {:induction false} LoadIdentity(p: Policy, s: seq<Message>)
    requires forall i :: 0 <= i < |s| ==> WellFormed(s[i]) && (s[i].propagated ==> p.PropagationOn())
    ensures Load(p, s) == s
  {
    if |s| != 0 {
      LoadIdentity(p, s[..|s| - 1]);
    }
  }

  lemma {:induction false} LoadCleans(p: Policy, file: seq<Message>)
    ensures forall i :: 0 <= i < |Load(p, file)| ==>
              WellFormed(Load(p, file)[i]) && (Load(p, file)[i].propagated ==> p.PropagationOn())
  {
    if |file| != 0 {
      LoadCleans(p, file[..|file| - 1]);
    }
  }

  predicate Sane(s: seq<Message>) {
    UniqueIds(s) && forall i :: 0 <= i < |s| ==> s[i].attempts >= 0
  }

  /** What a restart would read once any running save has landed. */
  function OnFile(w: World): seq<Message> {
    if w.flusher.Saving? then w.flusher.snap else w.disk
  }

  predicate Current(w: World) {
    Mirrors(Load(w.policy, OnFile(w)), Load(w.policy, w.queue.pending), w.queue.inFlight)
  }

  predicate Routed(p: Policy, s: seq<Message>) {
    forall i :: 0 <= i < |s| && s[i].propagated ==> p.PropagationOn()
  }

  predicate Durable(w: World) {
    && (!w.queue.dirty ==> Current(w))
    && (w.queue.dirty ==> w.queue.kicked || w.flusher.Delaying? || w.saveFailed)
    && Sane(w.disk)
    && (w.flusher.Saving? ==> Sane(w.flusher.snap))
    && Routed(w.policy, w.queue.pending)
  }

  lemma SnapshotMirrors(s: seq<Message>, inFlight: set<string>)
    ensures Mirrors(Snapshot(s), s, inFlight)
  {
  }

  lemma SnapshotSane(w: World)
    requires Ordered(w) && Opens(w) && Budgeted(w)
    ensures Sane(Snapshot(w.queue.pending))
  {
    var s := w.queue.pending;
    forall i | 0 <= i < |s|
      ensures s[i].attempts >= 0
    {
      assert Row(w.policy, s[i], w.log, w.number, w.sends, w.open);
      assert MessageOpens(s[i], w.workers, w.open);
    }
    assert forall i :: 0 <= i < |s| ==> Snapshot(s)[i].id == s[i].id;
  }

  lemma DurableByFlush(w: World, final: bool)
    requires Durable(w) && Ordered(w) && Opens(w) && Budgeted(w)
    requires w.flusher.Waiting? || w.flusher.Delaying?
    ensures Durable(FlushFrom(w, final))
  {
    if w.queue.dirty {
      SnapshotSane(w);
      SnapshotMirrors(w.queue.pending, w.queue.inFlight);
      LoadMirrors(w.policy, Snapshot(w.queue.pending), w.queue.pending, w.queue.inFlight);
    }
  }

  lemma RoutedKeep(p: Policy, s: seq<Message>, drop: set<string>)
    requires Routed(p, s)
    ensures Routed(p, Keep(s, drop))
  {
    var at := KeepEmbeds(s, drop);
  }

  /** A pick that reaps nothing leaves the messages alone; one that reaps marks the change. */
  lemma PickMarks(q: Queue, now: Time, answers: seq<Option<Time>>)
    ensures var q' := PickDue(q, now, answers).0;
            && q.inFlight <= q'.inFlight
            && ((q'.pending == q.pending && q'.dirty == q.dirty && q'.kicked == q.kicked) || (q'.dirty && q'.kicked))
  {
  }

  lemma MirrorsMore(file: seq<Message>, live: seq<Message>, some: set<string>, more: set<string>)
    requires Mirrors(file, live, some) && some <= more
    ensures Mirrors(file, live, more)
  {
  }

  lemma DurableByPick(w: World, k: nat, now: Time, answers: seq<Option<Time>>)
    requires Durable(w) && k < |w.workers|
    ensures Durable(Choose(w, k, now, answers))
  {
    PickPending(w, k, now, answers);
    RoutedKeep(w.policy, w.queue.pending, ExpiredIds(w.queue.pending, w.queue.inFlight, now));
    PickMarks(w.queue, now, answers);
    var w' := Choose(w, k, now, answers);
    if !w'.queue.dirty {
      MirrorsMore(Load(w.policy, OnFile(w)), Load(w.policy, w.queue.pending), w.queue.inFlight, w'.queue.inFlight);
    }
  }

  lemma BumpMirrors(s: seq<Message>, i: nat, inFlight: set<string>)
    requires i < |s| && s[i].id in inFlight
    ensures Mirrors(s, s[i := s[i].(attempts := s[i].attempts + 1)], inFlight)
  {
  }

  lemma DurableByStart(w: World, k: nat)
    requires Durable(w) && Exclusive(w) && Enabled(w, Began(k))
    ensures Durable(Start(w, k))
  {
    hide Load, Sane;
    var s := w.queue.pending;
    var i := IndexOf(s, w.workers[k].id);
    var s' := s[i := s[i].(attempts := s[i].attempts + 1)];
    StartPending(w, k);
    assert w.workers[k].id in HeldIds(w.workers);
    BumpMirrors(s, i, w.queue.inFlight);
    LoadMirrors(w.policy, s, s', w.queue.inFlight);
    if !w.queue.dirty {
      MirrorsTransitive(Load(w.policy, OnFile(w)), Load(w.policy, s), Load(w.policy, s'), w.queue.inFlight);
    }
  }

  lemma JudgeRouted(p: Policy, m: Message, attempts: int, o: Outcome, hasNode: bool, now: Time)
    ensures var v := Judge(p, m, attempts, o, hasNode, now);
            v.Retry? && v.m.propagated ==> m.propagated || p.PropagationOn()
  {
  }

  lemma RoutedFinish(p: Policy, q: Queue, id: string, attempts: int, o: Outcome, hasNode: bool, now: Time)
    requires Routed(p, q.pending) && id in Ids(q.pending)
    ensures Routed(p, Finish(p, q, id, attempts, o, hasNode, now).pending)
  {
    FinishPending(p, q, id, attempts, o, hasNode, now);
    RoutedKeep(p, q.pending, {id});
    JudgeRouted(p, q.pending[IndexOf(q.pending, id)], attempts, o, hasNode, now);
  }

  lemma DurableByFinish(w: World, k: nat, hasNode: bool)
    requires Durable(w) && Enabled(w, Finished(k, hasNode))
    ensures Durable(Settle(w, k, hasNode))
  {
    RoutedFinish(w.policy, w.queue, w.workers[k].id, w.workers[k].attempts, w.workers[k].outcome, hasNode, w.clock);
  }

  lemma DurableByAccept(w: World, m: Message)
    requires Durable(w) && Enabled(w, Enqueued(m))
    ensures Durable(Accept(w, m))
  {
    if !Full(w.queue) {
      assert Accept(w, m).queue.dirty && Accept(w, m).queue.kicked;
      RoutedAppend(w.policy, w.queue.pending, m);
    }
  }

  lemma RoutedAppend(p: Policy, s: seq<Message>, m: Message)
    requires Routed(p, s) && (m.propagated ==> p.PropagationOn())
    ensures Routed(p, s + [m])
  {
  }

  lemma DurableByBoot(w: World, p: Policy)
    requires Sane(w.disk)
    ensures Durable(Boot(w, p))
  {
    LoadCleans(p, w.disk);
    LoadIdentity(p, Load(p, w.disk));
  }

  lemma KeepsDurable(w: World, e: Event)
    requires Durable(w) && Ordered(w) && Exclusive(w) && Opens(w) && Budgeted(w) && Enabled(w, e)
    ensures Durable(Apply(w, e))
  {
    match e
    case Enqueued(m) => DurableByAccept(w, m);
    case Picked(k, now, answers) => DurableByPick(w, k, now, answers);
    case Began(k) => DurableByStart(w, k);
    case Finished(k, hasNode) => DurableByFinish(w, k, hasNode);
    case SnapshotTaken => DurableByFlush(w, false);
    case Cancelled => DurableByFlush(w, true);
    case Restarted(p) => DurableByBoot(w, p);
    case _ =>
  }
}
