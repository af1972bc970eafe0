/** The hold on the join pins, across restarts: it is kept on file, so it binds the messages a
    later process loads as it bound the ones that were enqueued. */
module SchedulerHold {
  import opened Prelude
  import opened Outbound
  import opened Scheduler
  import opened SchedulerOrder
  import opened SchedulerRuns
  import opened SchedulerStall

  /** In every reachable world, loaded messages included: while a held-back message is in a
      worker's hands, or once this process has begun to send it, nothing logged before it for
      the same recipient is queued. */
  lemma HeldBackInEveryWorld(ws: seq<World>, es: seq<Event>, n: nat, a: nat, b: nat)
    requires Run(ws, es) && n < |ws| && a < b < |ws[n].log|
    requires ws[n].log[b].afterEarlier && ws[n].log[a].recipient == ws[n].log[b].recipient
    requires ws[n].log[b].id in ws[n].queue.inFlight + ws[n].begun
    ensures ws[n].log[a].id !in Ids(ws[n].queue.pending)
  {
    Reachable(ws, es, n);
    assert WaitsFor(ws[n].log, a, b);
  }

  // ---- Order across restarts -----------------------------------------------

  /** The replay message and the pins, by id, with the one joiner they are for. */
  datatype Pair = Pair(replay: string, pins: string, joiner: Bytes)

  /** Wherever both are, the replay comes first, and each is what was enqueued. */
  predicate InSequel(s: seq<Message>, p: Pair) {
    && (forall x, y :: 0 <= x < |s| && 0 <= y < |s| && s[x].id == p.replay && s[y].id == p.pins ==> x < y)
    && (forall x :: 0 <= x < |s| && s[x].id == p.replay ==> s[x].recipient == p.joiner)
    && (forall y :: 0 <= y < |s| && s[y].id == p.pins ==> s[y].recipient == p.joiner && s[y].afterEarlier)
  }

  predicate Absent(s: seq<Message>, id: string) { forall x :: 0 <= x < |s| ==> s[x].id != id }

  /** The log, the file and a snapshot on its way there. */
  predicate Sequel(w: World, p: Pair) {
    InSequel(w.log, p) && InSequel(w.disk, p) && (w.flusher.Saving? ==> InSequel(w.flusher.snap, p))
  }

  predicate Nowhere(w: World, id: string) {
    Absent(w.log, id) && Absent(w.disk, id) && (w.flusher.Saving? ==> Absent(w.flusher.snap, id))
  }

  lemma PendingSequel(w: World, p: Pair)
    requires Ordered(w) && Faithful(w) && InSequel(w.log, p)
    ensures InSequel(Snapshot(w.queue.pending), p)
  {
    var s := w.queue.pending;
    var r := Snapshot(s);
    forall x | 0 <= x < |s|
      ensures r[x].id == s[x].id && r[x].recipient == s[x].recipient && r[x].afterEarlier == s[x].afterEarlier
      ensures s[x].id in w.number && w.number[s[x].id] < |w.log| && SameLetter(s[x], w.log[w.number[s[x].id]])
    {
    }
  }

  lemma PendingAbsent(w: World, id: string)
    requires Ordered(w) && Faithful(w) && Absent(w.log, id)
    ensures Absent(Snapshot(w.queue.pending), id)
  {
    var s := w.queue.pending;
    forall x | 0 <= x < |s|
      ensures s[x].id != id
    {
      assert SameLetter(s[x], w.log[w.number[s[x].id]]);
    }
  }

  lemma LoadSequel(q: Policy, file: seq<Message>, p: Pair)
    requires InSequel(file, p)
    ensures InSequel(Load(q, file), p)
  {
    var at := LoadEmbeds(q, file);
    var r := Load(q, file);
    forall x | 0 <= x < |r|
      ensures r[x].id == file[at[x]].id && r[x].recipient == file[at[x]].recipient
      ensures r[x].afterEarlier == file[at[x]].afterEarlier
    {
    }
    forall x, y | 0 <= x < |r| && 0 <= y < |r| && r[x].id == p.replay && r[y].id == p.pins
      ensures x < y
    {
      assert at[x] < at[y];
    }
  }

  lemma LoadAbsent(q: Policy, file: seq<Message>, id: string)
    requires Absent(file, id)
    ensures Absent(Load(q, file), id)
  {
    var at := LoadEmbeds(q, file);
  }

  lemma LogFrame(w: World, e: Event)
    requires Enabled(w, e) && !e.Restarted?
    ensures Apply(w, e).log == if e.Enqueued? && !Full(w.queue) then w.log + [e.m] else w.log
  {
    match e
    case Enqueued(_) =>
    case Picked(_, _, _) =>
    case Began(_) =>
    case SendReturned(_, _) =>
    case Finished(_, _) =>
    case _ => QuietFrame(w, e);
  }

  lemma NowhereStep(w: World, e: Event, id: string)
    requires Enabled(w, e) && Nowhere(w, id) && Ordered(w) && Faithful(w) && !(e.Enqueued? && e.m.id == id)
    ensures Nowhere(Apply(w, e), id)
  {
    hide Apply, Load, Snapshot;
    if e.Restarted? {
      RestartIsBoot(w, e.policy);
      LoadAbsent(e.policy, w.disk, id);
    } else {
      LogFrame(w, e);
      FileFrame(w, e);
      PendingAbsent(w, id);
    }
  }

  /** An enqueue that keeps the order: it is neither of the two, or the replay while the pins
      are nowhere, or the pins. */
  predicate Fits(w: World, e: Event, p: Pair) {
    e.Enqueued? ==>
      && p.replay != p.pins
      && (e.m.id == p.replay ==> e.m.recipient == p.joiner && Nowhere(w, p.pins))
      && (e.m.id == p.pins ==> e.m.recipient == p.joiner && e.m.afterEarlier)
      && Absent(w.log, e.m.id)
  }

  lemma SequelStep(w: World, e: Event, p: Pair)
    requires Enabled(w, e) && Sequel(w, p) && Ordered(w) && Faithful(w) && Fits(w, e, p)
    ensures Sequel(Apply(w, e), p)
  {
    hide Apply, Load, Snapshot, InSequel;
    if e.Restarted? {
      RestartIsBoot(w, e.policy);
      LoadSequel(e.policy, w.disk, p);
    } else {
      LogFrame(w, e);
      FileFrame(w, e);
      PendingSequel(w, p);
      if e.Enqueued? {
        AppendSequel(w, e.m, p);
      }
    }
  }

  lemma AppendSequel(w: World, m: Message, p: Pair)
    requires InSequel(w.log, p) && Fits(w, Enqueued(m), p)
    ensures InSequel(w.log + [m], p)
  {
  }

  /** No id is used for two messages of the run, or for one that was on file at the start. */
  predicate OneUse(ws: seq<World>, es: seq<Event>, i: nat)
    requires i < |es| < |ws|
  {
    && es[i].Enqueued? && Nowhere(ws[0], es[i].m.id)
    && (forall k :: 0 <= k < |es| && k != i && es[k].Enqueued? ==> es[k].m.id != es[i].m.id)
  }

  lemma {:induction false} NowhereBefore(ws: seq<World>, es: seq<Event>, i: nat, n: nat)
    requires |ws| == |es| + 1 && Run(ws, es) && n <= i < |es| && OneUse(ws, es, i)
    ensures Nowhere(ws[n], es[i].m.id)
  {
    hide Run, Apply, Inv, Nowhere;
    if n > 0 {
      NowhereBefore(ws, es, i, n - 1);
      Step(ws, es, n - 1);
      Reachable(ws, es, n - 1);
      InvOrdered(ws[n - 1]);
      InvFaithful(ws[n - 1]);
      NowhereStep(ws[n - 1], es[n - 1], es[i].m.id);
    }
  }

  lemma EnqueueAbsent(w: World, m: Message)
    requires Ordered(w) && Enabled(w, Enqueued(m))
    ensures Absent(w.log, m.id)
  {
  }

  /** A catch-up: a replay message enqueued at step `i`, the held-back pins for the same joiner
      at step `j`. */
  predicate CatchUp(ws: seq<World>, es: seq<Event>, i: nat, j: nat)
    requires |ws| == |es| + 1
  {
    && i < j < |es| && OneUse(ws, es, i) && OneUse(ws, es, j)
    && es[j].m.afterEarlier && es[j].m.recipient == es[i].m.recipient
  }

  function PairOf(es: seq<Event>, i: nat, j: nat): Pair
    requires i < |es| && j < |es| && es[i].Enqueued? && es[j].Enqueued?
  {
    Pair(es[i].m.id, es[j].m.id, es[i].m.recipient)
  }

  lemma CatchUpFits(ws: seq<World>, es: seq<Event>, i: nat, j: nat, n: nat)
    requires |ws| == |es| + 1 && Run(ws, es) && CatchUp(ws, es, i, j) && n < |es|
    ensures Fits(ws[n], es[n], PairOf(es, i, j))
  {
    hide Run, Apply, Inv, Nowhere, Absent;
    if es[n].Enqueued? {
      Step(ws, es, n);
      Reachable(ws, es, n);
      InvOrdered(ws[n]);
      EnqueueAbsent(ws[n], es[n].m);
      if n <= j {
        NowhereBefore(ws, es, j, n);
      }
    }
  }

  lemma {:induction false} AlwaysSequel(ws: seq<World>, es: seq<Event>, i: nat, j: nat, n: nat)
    requires |ws| == |es| + 1 && Run(ws, es) && CatchUp(ws, es, i, j) && n < |ws|
    ensures Sequel(ws[n], PairOf(es, i, j))
  {
    hide Run, Apply, Inv, Fits;
    if n > 0 {
      hide Sequel;
      AlwaysSequel(ws, es, i, j, n - 1);
      Step(ws, es, n - 1);
      Reachable(ws, es, n - 1);
      InvOrdered(ws[n - 1]);
      InvFaithful(ws[n - 1]);
      CatchUpFits(ws, es, i, j, n - 1);
      SequelStep(ws[n - 1], es[n - 1], PairOf(es, i, j));
    }
  }

  /** The hold survives restarts: at any later moment, in this process or one that loaded the
      file, whenever the pins are in a worker's hands or this process has begun to send them,
      the replay message is not queued. */
  lemma PinsAfterReplay(ws: seq<World>, es: seq<Event>, i: nat, j: nat, n: nat)
    requires |ws| == |es| + 1 && Run(ws, es) && CatchUp(ws, es, i, j) && n < |ws|
    requires es[j].m.id in ws[n].queue.inFlight + ws[n].begun
    ensures es[i].m.id !in Ids(ws[n].queue.pending)
    ensures forall k :: 0 <= k < |ws[n].workers| && ws[n].workers[k].Busy() ==> ws[n].workers[k].id != es[i].m.id
  {
    AlwaysSequel(ws, es, i, j, n);
    Reachable(ws, es, n);
    SequelHolds(ws[n], PairOf(es, i, j));
  }

  lemma SequelHolds(w: World, p: Pair)
    requires Inv(w) && Sequel(w, p) && p.pins in w.queue.inFlight + w.begun
    ensures p.replay !in Ids(w.queue.pending)
    ensures forall k :: 0 <= k < |w.workers| && w.workers[k].Busy() ==> w.workers[k].id != p.replay
  {
    assert forall k :: 0 <= k < |w.workers| && w.workers[k].Busy() ==> w.workers[k].id in HeldIds(w.workers);
    if p.replay in w.number && p.pins in w.number {
      var a, b := w.number[p.replay], w.number[p.pins];
      assert WaitsFor(w.log, a, b);
    }
  }

  /** What a crash does to the hold, exactly: with the pins begun, everything they waited for
      is out of the queue; a crash queues such a message again if and only if the process
      loaded it and has saved nothing, or the last save that landed still held it. */
  lemma ReplayComesBackExactly(ws: seq<World>, es: seq<Event>, k: nat, n: nat, a: nat, b: nat, p: Policy)
    requires |ws| == |es| + 1 && Run(ws, es) && k <= n < |ws| && Starts(es, k) && OneProcess(es, k, n)
    requires a < b < |ws[n].log| && ws[n].log[b].afterEarlier && ws[n].log[a].recipient == ws[n].log[b].recipient
    requires ws[n].log[b].id in ws[n].begun
    ensures var m := ws[n].log[a];
            && m.id !in Ids(ws[n].queue.pending)
            && (m.id in Ids(Boot(ws[n], p).queue.pending) <==>
                WellFormed(m) && ((NoneSaved(es, k, n) && a < |ws[k].log|) || LastSnapshotHolds(ws, es, k, n, m.id)))
  {
    hide Run, Boot, WellFormed, NoneSaved, LastSnapshotHolds;
    HeldBackInEveryWorld(ws, es, n, a, b);
    ComesBackExactly(ws, es, k, n, a, p);
  }

  // ---- What a crash forgets ------------------------------------------------

  /** A message as it lies on file: fresh, due at once, for a real address. */
  predicate Plain(m: Message) {
    m == Erase(m) && m.attempts == 0 && m.nextAttempt == None && m.enqueuedAt == Some(0) && !m.propagated
      && WellFormed(m)
  }

  /** One idle worker over this queue. */
  function Booted(p: Policy, file: seq<Message>): World {
    Boot(Nothing(p).(workers := [Idle], disk := file), p)
  }

  lemma PickHead(q: Queue, m: Message)
    requires q.pending != [] && q.pending[0] == m && Plain(m) && q.inFlight == {}
    requires forall i :: 0 <= i < |q.pending| ==> Plain(q.pending[i])
    requires forall i :: 1 <= i < |q.pending| ==> q.pending[i].afterEarlier && q.pending[i].recipient == m.recipient
    ensures PickDue(q, 0, []) == (q.(inFlight := {m.id}), Some(0))
    ensures ExpiredIds(q.pending, q.inFlight, 0) == {}
  {
    assert ExpiredIds(q.pending, q.inFlight, 0) == {};
    assert Reap(q, 0) == q;
    assert forall i :: 1 <= i < |q.pending| ==> HasEarlierFor(q.pending, i, m.recipient);
    assert Eligible(q, 0, 0);
    assert IsBest(q, 0, [], |q.pending|, 0);
    BestIsBest(q, 0, [], |q.pending|);
    assert BestUpTo(q, 0, [], |q.pending|) == Some(0);
    assert q.inFlight + {m.id} == {m.id};
  }

  lemma BootedQueue(p: Policy, a: Message, b: Message)
    requires p.Valid() && Plain(a) && Plain(b) && a.id != b.id
    ensures var w := Booted(p, [a, b]);
            Init(w) && w.queue == Queue([a, b], {}, false, false, 0) && w.workers == [Idle] && w.clock == 0
            && w.disk == [a, b] && w.begun == {}
  {
    assert [a, b][..1] == [a] && [a][..0] == [];
    assert Load(p, [a]) == [a];
    assert Load(p, [a, b]) == [a, b];
    var w := Booted(p, [a, b]);
    assert seq(|[Idle]|, _ => Idle) == [Idle];
    assert w.workers == [Idle];
    assert w == Boot(w, p);
  }

  /** One idle worker at time zero over fresh messages for one joiner, all but the first held
      back. */
  predicate Queued(w: World) {
    && w.workers == [Idle] && w.clock == 0 && w.queue.inFlight == {} && w.queue.pending != []
    && (forall i :: 0 <= i < |w.queue.pending| ==> Plain(w.queue.pending[i]))
    && (forall i :: 1 <= i < |w.queue.pending| ==>
          w.queue.pending[i].afterEarlier && w.queue.pending[i].recipient == w.queue.pending[0].recipient)
  }

  const PICK: Event := Picked(0, 0, [])

  lemma HeadPicked(w: World)
    requires Queued(w)
    ensures Enabled(w, PICK)
    ensures var w' := Apply(w, PICK);
            && w'.workers == [Holding(w.queue.pending[0].id)]
              && w'.queue == w.queue.(inFlight := {w.queue.pending[0].id})
            && w'.clock == 0 && w'.disk == w.disk && w'.begun == w.begun && w'.policy == w.policy
  {
    PickHead(w.queue, w.queue.pending[0]);
  }

  lemma HeadBegun(w: World, m: Message)
    requires w.workers == [Holding(m.id)] && w.queue.pending != [] && w.queue.pending[0] == m && !m.propagated
    ensures Enabled(w, Began(0))
    ensures var w' := Apply(w, Began(0));
            && w'.workers == [Sending(m.id, m.attempts + 1, false)] && w'.begun == w.begun + {m.id}
            && w'.queue == w.queue.(pending := w.queue.pending[0 := m.(attempts := m.attempts + 1)])
            && w'.clock == w.clock && w'.disk == w.disk && w'.policy == w.policy
  {
    assert m.id in Ids(w.queue.pending);
    assert IndexOf(w.queue.pending, m.id) == 0;
  }

  lemma HeadDelivered(w: World, m: Message, rest: seq<Message>)
    requires w.workers == [Sending(m.id, 1, false)] && w.queue.pending == [m] + rest && Absent(rest, m.id)
    ensures Enabled(w, SendReturned(0, Sent([])))
    ensures var w1 := Apply(w, SendReturned(0, Sent([])));
            && Enabled(w1, Finished(0, false))
            && var w2 := Apply(w1, Finished(0, false));
            && w2.workers == [Idle] && w2.queue.pending == rest && w2.queue.inFlight == w.queue.inFlight - {m.id}
            && w2.clock == w.clock && w2.disk == w.disk && w2.policy == w.policy
  {
    var w1 := Apply(w, SendReturned(0, Sent([])));
    assert w.queue.pending[0].id == m.id;
    assert m.id in Ids(w.queue.pending);
    FinishPending(w1.policy, w1.queue, m.id, 1, Sent([]), false, w1.clock);
    KeepHead(m, rest);
  }

  lemma KeepHead(m: Message, rest: seq<Message>)
    requires Absent(rest, m.id)
    ensures Keep([m] + rest, {m.id}) == rest
  {
    KeepWhole([m] + rest, m.id, |rest|);
  }

  lemma {:induction false} KeepWhole(s: seq<Message>, id: string, n: nat)
    requires n + 1 == |s| && s[0].id == id && forall x :: 1 <= x < |s| ==> s[x].id != id
    ensures Keep(s, {id}) == s[1..]
  {
    if n > 0 {
      KeepWhole(s[..n], id, n - 1);
      assert s[1..] == s[..n][1..] + [s[n]];
    } else {
      assert s[..0] == [];
    }
  }

  /** "Ever begun" is a fact about one process: a crash before the file has caught up brings a
      delivered replay message back, after the pins have gone out. */
  lemma StaleFileReplays(p: Policy, a: Message, b: Message) returns (ws: seq<World>, es: seq<Event>)
    requires p.Valid() && Plain(a) && Plain(b) && a.id != b.id && b.afterEarlier && a.recipient == b.recipient
    ensures Run(ws, es) && |es| == 7
    ensures b.id in ws[6].begun && a.id !in Ids(ws[6].queue.pending)
    ensures es[6] == Restarted(p) && ws[7].queue.pending == [a, b]
  {
    hide Apply, Boot, Plain, Enabled, Init;
    var w0 := Booted(p, [a, b]);
    BootedQueue(p, a, b);
    FreshPair(w0, a, b);
    FirstGoes(w0, a, b);
    var w1 := Apply(w0, PICK);
    var w2 := Apply(w1, Began(0));
    var w3 := Apply(w2, SendReturned(0, Sent([])));
    var w4 := Apply(w3, Finished(0, false));
    SecondBegins(w4, b);
    var w5 := Apply(w4, PICK);
    var w6 := Apply(w5, Began(0));
    RestartAllowed(w6, p);
    var w7 := Apply(w6, Restarted(p));
    LoadsBoth(w6, p, a, b);
    ws := [w0, w1, w2, w3, w4, w5, w6, w7];
    es := [PICK, Began(0), SendReturned(0, Sent([])), Finished(0, false), PICK, Began(0), Restarted(p)];
    assert forall i {:trigger es[i]} :: 0 <= i < |es| ==> Enabled(ws[i], es[i]) && ws[i + 1] == Apply(ws[i], es[i]);
  }

  lemma RestartAllowed(w: World, p: Policy)
    requires p.Valid()
    ensures Enabled(w, Restarted(p))
  {
  }

  /** The replay message is picked, sent and delivered; the file stays as it was. */
  lemma FirstGoes(w0: World, a: Message, b: Message)
    requires Queued(w0) && w0.queue.pending == [a, b] && a.id != b.id && Plain(a) && Plain(b)
    ensures Enabled(w0, PICK)
    ensures var w1 := Apply(w0, PICK);
            && Enabled(w1, Began(0))
            && var w2 := Apply(w1, Began(0));
            && Enabled(w2, SendReturned(0, Sent([])))
            && var w3 := Apply(w2, SendReturned(0, Sent([])));
            && Enabled(w3, Finished(0, false))
            && var w4 := Apply(w3, Finished(0, false));
            && Queued(w4) && w4.queue.pending == [b] && w4.disk == w0.disk
  {
    hide Apply, Plain;
    FreshAttempt(a);
    HeadPicked(w0);
    var w1 := Apply(w0, PICK);
    HeadBegun(w1, a);
    var w2 := Apply(w1, Began(0));
    var sent := a.(attempts := a.attempts + 1);
    assert w2.queue.pending == [sent] + [b];
    HeadDelivered(w2, sent, [b]);
    FreshOne(Apply(Apply(w2, SendReturned(0, Sent([]))), Finished(0, false)), b);
  }

  /** The pins are picked and begun. */
  lemma SecondBegins(w: World, b: Message)
    requires Queued(w) && w.queue.pending == [b] && Plain(b)
    ensures Enabled(w, PICK)
    ensures var w1 := Apply(w, PICK);
            && Enabled(w1, Began(0))
            && var w2 := Apply(w1, Began(0));
            b.id in w2.begun && |w2.queue.pending| == 1 && w2.queue.pending[0].id == b.id && w2.disk == w.disk
  {
    hide Apply, Plain;
    FreshAttempt(b);
    HeadPicked(w);
    HeadBegun(Apply(w, PICK), b);
  }

  lemma FreshAttempt(m: Message)
    requires Plain(m)
    ensures m.attempts == 0 && !m.propagated
  {
  }

  lemma FreshPair(w: World, a: Message, b: Message)
    requires w.queue.pending == [a, b] && Plain(a) && Plain(b) && b.afterEarlier && a.recipient == b.recipient
    requires w.workers == [Idle] && w.clock == 0 && w.queue.inFlight == {}
    ensures Queued(w)
  {
  }

  lemma FreshOne(w: World, b: Message)
    requires w.queue.pending == [b] && Plain(b) && w.workers == [Idle] && w.clock == 0 && w.queue.inFlight == {}
    ensures Queued(w) && !b.propagated
  {
  }

  lemma LoadsBoth(w: World, p: Policy, a: Message, b: Message)
    requires w.disk == [a, b] && Plain(a) && Plain(b) && p.Valid()
    ensures Apply(w, Restarted(p)).queue.pending == [a, b]
  {
    assert [a, b][..1] == [a] && [a][..0] == [];
    assert Load(p, [a]) == [a];
  }
}
