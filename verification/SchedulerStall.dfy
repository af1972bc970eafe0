/** Coalesced writing, exactly: when an unwritten change has nothing scheduled to write it,
    for how long, and which accepted messages a crash loses. */
module SchedulerStall {
  import opened Prelude
  import opened Outbound
  import opened Scheduler
  import opened SchedulerOrder
  import opened SchedulerDisk
  import opened SchedulerRuns

  // ---- Dirty with nothing scheduled ----------------------------------------

  predicate FailureMarks(w: World) { w.saveFailed ==> w.queue.dirty }

  lemma KeepsFailureMarks(w: World, e: Event)
    requires FailureMarks(w) && Enabled(w, e)
    ensures FailureMarks(Apply(w, e))
  {
    match e
    case Picked(k, now, answers) => PickMarks(w.queue, now, answers);
    case Enqueued(_) =>
    case Began(_) =>
    case SendReturned(_, _) =>
    case Finished(_, _) =>
    case SnapshotTaken =>
    case Cancelled =>
    case SaveSucceeded =>
    case SaveErred =>
    case _ =>
  }

  lemma {:induction false} AlwaysFailureMarks(ws: seq<World>, es: seq<Event>, n: nat)
    requires Run(ws, es) && n < |ws|
    ensures FailureMarks(ws[n])
  {
    if n > 0 {
      AlwaysFailureMarks(ws, es, n - 1);
      Step(ws, es, n - 1);
      KeepsFailureMarks(ws[n - 1], es[n - 1]);
    }
  }

  /** With no wake-up pending and none being acted on, there is an unwritten change if and
      only if a save has failed since the last snapshot. */
  lemma UnscheduledExactly(ws: seq<World>, es: seq<Event>, n: nat)
    requires Run(ws, es) && n < |ws| && !ws[n].queue.kicked && !ws[n].flusher.Delaying?
    ensures ws[n].queue.dirty <==> ws[n].saveFailed
  {
    AlwaysFailureMarks(ws, es, n);
    Reachable(ws, es, n);
  }

  /** Something is unwritten, nothing is scheduled, and the flusher sleeps. */
  predicate Stalled(w: World) { w.queue.dirty && !w.queue.kicked && w.flusher.Waiting? }

  /** Steps that mark a change, shut down or restart. */
  predicate Wakes(w: World, e: Event) {
    match e
    case Enqueued(_) => !Full(w.queue)
    case Picked(_, now, _) => ExpiredIds(w.queue.pending, w.queue.inFlight, now) != {}
    case Finished(_, _) => true
    case Cancelled => true
    case Restarted(_) => true
    case _ => false
  }

  lemma StallStep(w: World, e: Event)
    requires Enabled(w, e) && Stalled(w)
    ensures Stalled(Apply(w, e)) <==> !Wakes(w, e)
    ensures !Wakes(w, e) ==> Apply(w, e).disk == w.disk
  {
    match e
    case Enqueued(_) =>
    case Picked(_, _, _) =>
    case Began(_) =>
    case SendReturned(_, _) =>
    case Finished(_, _) =>
    case Restarted(_) =>
    case _ =>
  }

  predicate StalledFrom(ws: seq<World>, i: nat, j: nat)
    requires j < |ws|
  {
    forall n :: i <= n <= j ==> Stalled(ws[n])
  }

  predicate Undisturbed(ws: seq<World>, es: seq<Event>, i: nat, j: nat)
    requires j <= |es| < |ws|
  {
    forall n :: i <= n < j ==> !Wakes(ws[n], es[n])
  }

  /** A failed save is not retried: from a stalled moment on, the queue stays stalled and the
      file stays as it was exactly until the first step that marks a change, shuts down or
      restarts. */
  lemma {:induction false} StalledExactly(ws: seq<World>, es: seq<Event>, i: nat, j: nat)
    requires |ws| == |es| + 1 && Run(ws, es) && i <= j < |ws| && Stalled(ws[i])
    ensures StalledFrom(ws, i, j) <==> Undisturbed(ws, es, i, j)
    ensures Undisturbed(ws, es, i, j) ==> ws[j].disk == ws[i].disk
  {
    hide Stalled, Wakes, Run, Apply;
    if i < j {
      StalledExactly(ws, es, i, j - 1);
      assert StalledFrom(ws, i, j) <==> StalledFrom(ws, i, j - 1) && Stalled(ws[j]);
      assert Undisturbed(ws, es, i, j) <==> Undisturbed(ws, es, i, j - 1) && !Wakes(ws[j - 1], es[j - 1]);
      Step(ws, es, j - 1);
      if StalledFrom(ws, i, j - 1) {
        StallStep(ws[j - 1], es[j - 1]);
      }
    }
  }

  // ---- What a crash loses --------------------------------------------------

  predicate Known(s: seq<Message>, number: map<string, nat>) {
    forall i :: 0 <= i < |s| && WellFormed(s[i]) ==> s[i].id in number
  }

  /** Everything a restart could read belongs to a message this process has accepted. */
  predicate FileKnown(w: World) {
    Known(w.disk, w.number) && (w.flusher.Saving? ==> Known(w.flusher.snap, w.number))
  }

  /** A loaded message is the file's entry, back on the direct route when propagation is off. */
  predicate Restored(p: Policy, a: Message, b: Message) {
    && b.id == a.id && b.recipient == a.recipient && b.body == a.body && b.fields == a.fields && b.bubble == a.bubble
    && b.attempts == a.attempts && b.nextAttempt == a.nextAttempt && b.enqueuedAt == a.enqueuedAt
    && b.afterEarlier == a.afterEarlier && (b.propagated <==> a.propagated && (p.fallback || p.always))
  }

  /** `Load` keeps exactly the entries with a 16-byte recipient, in order. */
  lemma LoadKeepsExactly(p: Policy, file: seq<Message>) returns (at: seq<nat>)
    ensures |at| == |Load(p, file)|
    ensures forall k :: 0 <= k < |at| ==> at[k] < |file| && Restored(p, file[at[k]], Load(p, file)[k])
    ensures forall k, l :: 0 <= k < l < |at| ==> at[k] < at[l]
    ensures forall i :: 0 <= i < |file| ==> (i in at <==> |file[i].recipient| == 16)
  {
    at := LoadEmbeds(p, file);
    forall i | 0 <= i < |file|
      ensures i in at <==> WellFormed(file[i])
    {
    }
  }

  /** `Load` keeps the well-formed entries of the file, in order. */
  lemma {:induction false} LoadEmbeds(p: Policy, file: seq<Message>) returns (at: seq<nat>)
    ensures |at| == |Load(p, file)|
    ensures forall k :: 0 <= k < |at| ==>
              at[k] < |file| && WellFormed(file[at[k]]) && Load(p, file)[k] == Demote(p, file[at[k]])
    ensures forall k, l :: 0 <= k < l < |at| ==> at[k] < at[l]
    ensures forall i :: 0 <= i < |file| && WellFormed(file[i]) ==> i in at
  {
    if |file| == 0 {
      at := [];
    } else {
      at := LoadEmbeds(p, file[..|file| - 1]);
      if WellFormed(file[|file| - 1]) {
        at := at + [|file| - 1];
      }
    }
  }

  predicate OnDisk(s: seq<Message>, id: string) { exists i :: 0 <= i < |s| && WellFormed(s[i]) && s[i].id == id }

  lemma LoadedIds(p: Policy, file: seq<Message>, id: string)
    ensures id in Ids(Load(p, file)) <==> OnDisk(file, id)
  {
    var at := LoadEmbeds(p, file);
    var r := Load(p, file);
    if OnDisk(file, id) {
      var i :| 0 <= i < |file| && WellFormed(file[i]) && file[i].id == id;
      assert i in at;
      var k :| 0 <= k < |at| && at[k] == i;
      assert r[k].id == id;
    }
    if id in Ids(r) {
      var k :| 0 <= k < |r| && r[k].id == id;
      assert file[at[k]].id == id;
    }
  }

  lemma SnapshotKnown(s: seq<Message>, number: map<string, nat>)
    requires InOrder(s, number)
    ensures Known(Snapshot(s), number)
  {
  }

  lemma NumbersGrow(w: World, e: Event)
    requires Enabled(w, e) && !e.Restarted?
    ensures w.number.Keys <= Apply(w, e).number.Keys
  {
    match e
    case Enqueued(_) =>
    case Picked(_, _, _) =>
    case Began(_) =>
    case SendReturned(_, _) =>
    case Finished(_, _) =>
    case _ => QuietFrame(w, e);
  }

  lemma BootKnown(w: World, p: Policy)
    ensures FileKnown(Boot(w, p))
  {
    forall i | 0 <= i < |w.disk| && WellFormed(w.disk[i])
      ensures w.disk[i].id in Ids(Load(p, w.disk))
    {
      LoadedIds(p, w.disk, w.disk[i].id);
    }
  }

  /** Only the flusher's own steps touch the file or the snapshot under way. */
  lemma FileFrame(w: World, e: Event)
    requires Enabled(w, e) && !e.Restarted?
    ensures Apply(w, e).disk == if e.SaveSucceeded? then w.flusher.snap else w.disk
    ensures !Flushes(w, e) && !Lands(e) ==>
              (Apply(w, e).flusher.Saving? <==> w.flusher.Saving?)
              && (w.flusher.Saving? ==> Apply(w, e).flusher == w.flusher)
    ensures Flushes(w, e) ==> !w.flusher.Saving? && Apply(w, e).flusher.Saving?
                              && Apply(w, e).flusher.snap == Snapshot(w.queue.pending)
    ensures Lands(e) ==> w.flusher.Saving? && !Apply(w, e).flusher.Saving?
  {
    match e
    case Enqueued(_) =>
    case Picked(_, _, _) =>
    case Began(_) =>
    case SendReturned(_, _) =>
    case Finished(_, _) =>
    case _ =>
  }

  /** A flush that has something to write. */
  predicate Flushes(w: World, e: Event) { (e.SnapshotTaken? || e.Cancelled?) && w.queue.dirty }

  /** A save that ends, either way. */
  predicate Lands(e: Event) { e.SaveSucceeded? || e.SaveErred? }

  lemma KeepsFileKnown(w: World, e: Event)
    requires Enabled(w, e) && FileKnown(w) && Ordered(w)
    ensures FileKnown(Apply(w, e))
  {
    hide Apply;
    if e.Restarted? {
      RestartIsBoot(w, e.policy);
      BootKnown(w, e.policy);
    } else {
      FileFrame(w, e);
      NumbersGrow(w, e);
      SnapshotKnown(w.queue.pending, w.number);
    }
  }

  lemma RestartIsBoot(w: World, p: Policy)
    requires Enabled(w, Restarted(p))
    ensures Apply(w, Restarted(p)) == Boot(w, p)
  {
  }

  lemma {:induction false} AlwaysFileKnown(ws: seq<World>, es: seq<Event>, n: nat)
    requires Run(ws, es) && n < |ws|
    ensures FileKnown(ws[n])
  {
    hide Apply, Inv;
    if n == 0 {
      BootKnown(ws[0], ws[0].policy);
    } else {
      AlwaysFileKnown(ws, es, n - 1);
      Step(ws, es, n - 1);
      Reachable(ws, es, n - 1);
      InvOrdered(ws[n - 1]);
      KeepsFileKnown(ws[n - 1], es[n - 1]);
    }
  }

  lemma InvOrdered(w: World)
    requires Inv(w)
    ensures Ordered(w)
  {
  }

  /** The file is not written by the acceptance: crash now, and the message is gone,
      whatever the message and the run. */
  lemma AcceptedIsUnsaved(ws: seq<World>, es: seq<Event>, n: nat, p: Policy)
    requires Run(ws, es) && n < |es| && es[n].Enqueued? && !Full(ws[n].queue)
    ensures es[n].m.id in Ids(ws[n + 1].queue.pending)
    ensures es[n].m.id !in Ids(Boot(ws[n + 1], p).queue.pending)
  {
    Step(ws, es, n);
    AlwaysFileKnown(ws, es, n);
    AppendIds(ws[n].queue.pending, es[n].m);
    LoadedIds(p, ws[n].disk, es[n].m.id);
  }

  /** The flush at `s` is the one whose save landed at `t`. */
  predicate SavedBy(ws: seq<World>, es: seq<Event>, s: nat, t: nat)
    requires t < |es| < |ws|
  {
    && s < t && Flushes(ws[s], es[s]) && es[t].SaveSucceeded?
    && (forall u :: s < u < t ==> !Lands(es[u]))
  }

  predicate NoneSaved(es: seq<Event>, i: nat, j: nat)
    requires j <= |es|
  {
    forall u :: i <= u < j ==> !es[u].SaveSucceeded?
  }

  /** Where a snapshot under way comes from: a flush since `i`, or one before it. */
  lemma {:induction false} SnapOrigin(ws: seq<World>, es: seq<Event>, i: nat, k: nat)
    requires |ws| == |es| + 1 && Run(ws, es) && i <= k < |ws| && OneProcess(es, i, k) && ws[k].flusher.Saving?
    ensures || (ws[i].flusher == ws[k].flusher && forall u :: i <= u < k ==> !Lands(es[u]) && !Flushes(ws[u], es[u]))
            || exists s :: i <= s < k && Flushes(ws[s], es[s]) && ws[k].flusher.snap == Snapshot(ws[s].queue.pending)
                           && forall u :: s < u < k ==> !Lands(es[u])
  {
    hide Run, Apply, Flushes, Snapshot;
    if i < k {
      Step(ws, es, k - 1);
      FileFrame(ws[k - 1], es[k - 1]);
      if !Flushes(ws[k - 1], es[k - 1]) {
        SnapOrigin(ws, es, i, k - 1);
      }
    }
  }

  /** A flush cannot start while a save runs. */
  lemma {:induction false} SavingUntilLanded(ws: seq<World>, es: seq<Event>, i: nat, k: nat)
    requires |ws| == |es| + 1 && Run(ws, es) && i <= k < |ws| && OneProcess(es, i, k) && ws[i].flusher.Saving?
    requires forall u :: i <= u < k ==> !Lands(es[u])
    ensures ws[k].flusher == ws[i].flusher
  {
    hide Run, Apply, Flushes, Snapshot;
    if i < k {
      SavingUntilLanded(ws, es, i, k - 1);
      Step(ws, es, k - 1);
      FileFrame(ws[k - 1], es[k - 1]);
    }
  }

  lemma SavedSnapshot(ws: seq<World>, es: seq<Event>, s: nat, t: nat)
    requires |ws| == |es| + 1 && Run(ws, es) && s <= t < |es| && OneProcess(es, s, t) && SavedBy(ws, es, s, t)
    ensures ws[t + 1].disk == Snapshot(ws[s].queue.pending)
  {
    hide Run, Apply, Snapshot;
    Step(ws, es, s);
    FileFrame(ws[s], es[s]);
    SavingUntilLanded(ws, es, s + 1, t);
    Step(ws, es, t);
    FileFrame(ws[t], es[t]);
  }

  lemma {:induction false} FileStands(ws: seq<World>, es: seq<Event>, i: nat, j: nat)
    requires |ws| == |es| + 1 && Run(ws, es) && i <= j < |ws| && OneProcess(es, i, j) && NoneSaved(es, i, j)
    ensures ws[j].disk == ws[i].disk
  {
    hide Run, Apply;
    if i < j {
      FileStands(ws, es, i, j - 1);
      Step(ws, es, j - 1);
      FileFrame(ws[j - 1], es[j - 1]);
    }
  }

  /** The last save landed at `t`, of a snapshot taken at `s`, both since `n`, and the
      snapshot holds the message. */
  predicate LastSaved(ws: seq<World>, es: seq<Event>, n: nat, s: nat, t: nat, j: nat, id: string)
    requires j <= |es| < |ws|
  {
    n < s < t < j && SavedBy(ws, es, s, t) && NoneSaved(es, t + 1, j) && id in Ids(ws[s].queue.pending)
  }

  lemma SnapshotIds(s: seq<Message>, id: string, number: map<string, nat>, log: seq<Message>, m: Message)
    requires Letters(s, log, number) && id in number && number[id] < |log| && log[number[id]] == m
    ensures OnDisk(Snapshot(s), id) <==> WellFormed(m) && id in Ids(s)
  {
    var r := Snapshot(s);
    if id in Ids(s) && WellFormed(m) {
      var i :| 0 <= i < |s| && s[i].id == id;
      assert r[i] == Erase(s[i]) && SameLetter(s[i], m);
    }
    if OnDisk(r, id) {
      var i :| 0 <= i < |r| && WellFormed(r[i]) && r[i].id == id;
      assert r[i] == Erase(s[i]) && SameLetter(s[i], m);
    }
  }

  lemma {:induction false} LatestSave(es: seq<Event>, i: nat, j: nat) returns (t: Option<nat>)
    requires i <= j <= |es|
    ensures t.None? ==> NoneSaved(es, i, j)
    ensures t.Some? ==> i <= t.value < j && es[t.value].SaveSucceeded? && NoneSaved(es, t.value + 1, j)
  {
    if i == j {
      t := None;
    } else if es[j - 1].SaveSucceeded? {
      t := Some(j - 1);
    } else {
      t := LatestSave(es, i, j - 1);
    }
  }

  /** An accepted message stays where it was logged. */
  lemma StaysLogged(ws: seq<World>, es: seq<Event>, n: nat, k: nat)
    requires |ws| == |es| + 1 && Run(ws, es) && n < k < |ws| && OneProcess(es, n, k)
    requires es[n].Enqueued? && !Full(ws[n].queue)
    ensures var m := es[n].m; var w := ws[k];
            m.id in w.number && w.number[m.id] < |w.log| && w.log[w.number[m.id]] == m
  {
    hide Run, Apply, Inv;
    Step(ws, es, n);
    AcceptLogs(ws[n], es[n].m);
    LogGrows(ws, es, n + 1, k);
    Reachable(ws, es, k);
    InvOrdered(ws[k]);
    var x := |ws[n].log|;
    assert ws[k].log[x] == es[n].m;
  }

  /** Nothing that was on file or on its way there before the acceptance holds the message. */
  lemma NotBefore(ws: seq<World>, es: seq<Event>, n: nat)
    requires |ws| == |es| + 1 && Run(ws, es) && n < |es| && es[n].Enqueued?
    ensures !OnDisk(ws[n + 1].disk, es[n].m.id)
    ensures ws[n + 1].flusher.Saving? ==> !OnDisk(ws[n + 1].flusher.snap, es[n].m.id)
  {
    hide Run, Apply;
    Step(ws, es, n);
    FileFrame(ws[n], es[n]);
    AlwaysFileKnown(ws, es, n);
  }

  lemma OnDiskHasSave(ws: seq<World>, es: seq<Event>, n: nat, j: nat) returns (s: nat, t: nat)
    requires |ws| == |es| + 1 && Run(ws, es) && n < j < |ws| && OneProcess(es, n, j) && es[n].Enqueued?
    requires OnDisk(ws[j].disk, es[n].m.id)
    ensures n < s < t < j && SavedBy(ws, es, s, t) && NoneSaved(es, t + 1, j)
  {
    hide Run, Apply, OnDisk, Snapshot, Flushes;
    NotBefore(ws, es, n);
    var last := LatestSave(es, n + 1, j);
    s, t := n, n;
    if last.None? {
      FileStands(ws, es, n + 1, j);
    } else {
      t := last.value;
      FileStands(ws, es, t + 1, j);
      Step(ws, es, t);
      FileFrame(ws[t], es[t]);
      SnapOrigin(ws, es, n + 1, t);
      s :| n + 1 <= s < t && Flushes(ws[s], es[s]) && forall u :: s < u < t ==> !Lands(es[u]);
    }
  }

  /** Exactly which acceptances a crash keeps: those whose recipient is an address and which
      are in the snapshot of the last save that landed, taken after the acceptance. */
  lemma CrashKeepsExactly(ws: seq<World>, es: seq<Event>, n: nat, j: nat, p: Policy)
    requires |ws| == |es| + 1 && Run(ws, es) && n < j < |ws| && OneProcess(es, n, j)
    requires es[n].Enqueued? && !Full(ws[n].queue)
    ensures es[n].m.id in Ids(Boot(ws[j], p).queue.pending) <==>
            WellFormed(es[n].m) && exists s: nat, t: nat :: LastSaved(ws, es, n, s, t, j, es[n].m.id)
  {
    hide Run, Apply, Inv, SavedBy, NoneSaved, Snapshot, OnDisk;
    var m := es[n].m;
    LoadedIds(p, ws[j].disk, m.id);
    if OnDisk(ws[j].disk, m.id) {
      var s, t := OnDiskHasSave(ws, es, n, j);
      SavedHolds(ws, es, n, s, t, j);
      assert LastSaved(ws, es, n, s, t, j, m.id);
    }
    forall s: nat, t: nat | LastSaved(ws, es, n, s, t, j, m.id)
      ensures OnDisk(ws[j].disk, m.id) <==> WellFormed(m)
    {
      SavedHolds(ws, es, n, s, t, j);
    }
  }

  /** The file at `j` holds the message exactly when the snapshot of that save did. */
  lemma SavedHolds(ws: seq<World>, es: seq<Event>, n: nat, s: nat, t: nat, j: nat)
    requires |ws| == |es| + 1 && Run(ws, es) && n < s < t < j < |ws| && OneProcess(es, n, j)
    requires es[n].Enqueued? && !Full(ws[n].queue) && SavedBy(ws, es, s, t) && NoneSaved(es, t + 1, j)
    ensures OnDisk(ws[j].disk, es[n].m.id) <==> WellFormed(es[n].m) && es[n].m.id in Ids(ws[s].queue.pending)
  {
    hide Run, Apply, Inv, SavedBy, NoneSaved, Snapshot, OnDisk;
    SavedSnapshot(ws, es, s, t);
    FileStands(ws, es, t + 1, j);
    StaysLogged(ws, es, n, s);
    Reachable(ws, es, s);
    InvFaithful(ws[s]);
    SnapshotIds(ws[s].queue.pending, es[n].m.id, ws[s].number, ws[s].log, es[n].m);
  }

  lemma InvFaithful(w: World)
    requires Inv(w)
    ensures Faithful(w)
  {
  }

  // ---- Every message of a process, loaded or accepted ----------------------

  /** Step `k` starts a process: the run's first world, or one that a restart booted. */
  predicate Starts(es: seq<Event>, k: nat)
    requires k <= |es|
  {
    k == 0 || es[k - 1].Restarted?
  }

  /** A process starts with the file loaded, nothing saved and the flusher asleep. */
  lemma StartFacts(ws: seq<World>, es: seq<Event>, k: nat)
    requires |ws| == |es| + 1 && Run(ws, es) && k < |ws| && Starts(es, k)
    ensures ws[k].log == Load(ws[k].policy, ws[k].disk) && ws[k].flusher.Waiting?
  {
    if k > 0 {
      Step(ws, es, k - 1);
      RestartIsBoot(ws[k - 1], es[k - 1].policy);
    }
  }

  /** A logged message keeps its place while the process lives. */
  lemma StaysAt(ws: seq<World>, es: seq<Event>, i: nat, n: nat, x: nat)
    requires |ws| == |es| + 1 && Run(ws, es) && i <= n < |ws| && OneProcess(es, i, n) && x < |ws[i].log|
    ensures x < |ws[n].log| && ws[n].log[x] == ws[i].log[x]
    ensures ws[n].log[x].id in ws[n].number && ws[n].number[ws[n].log[x].id] == x
  {
    hide Run, Apply, Inv;
    LogGrows(ws, es, i, n);
    Reachable(ws, es, n);
    InvOrdered(ws[n]);
  }

  /** What the snapshot taken at `s` holds of the message logged at `x`. */
  lemma SnapshotAt(ws: seq<World>, es: seq<Event>, s: nat, n: nat, x: nat)
    requires |ws| == |es| + 1 && Run(ws, es) && s <= n < |ws| && OneProcess(es, s, n) && x < |ws[n].log|
    ensures var m := ws[n].log[x];
            OnDisk(Snapshot(ws[s].queue.pending), m.id) <==> WellFormed(m) && m.id in Ids(ws[s].queue.pending)
  {
    hide Run, Apply, Inv, OnDisk, Snapshot;
    var m := ws[n].log[x];
    StaysAt(ws, es, n, n, x);
    Reachable(ws, es, s);
    InvOrdered(ws[s]);
    InvFaithful(ws[s]);
    if m.id in ws[s].number {
      var y := ws[s].number[m.id];
      StaysAt(ws, es, s, n, y);
      SnapshotIds(ws[s].queue.pending, m.id, ws[s].number, ws[s].log, m);
    } else {
      UnknownNowhere(ws[s], m.id);
    }
  }

  lemma UnknownNowhere(w: World, id: string)
    requires Ordered(w) && id !in w.number
    ensures id !in Ids(w.queue.pending) && !OnDisk(Snapshot(w.queue.pending), id)
  {
    SnapshotKnown(w.queue.pending, w.number);
  }

  /** Loaded at the start of the process, or logged since? The file it started from knows. */
  lemma LoadedExactly(ws: seq<World>, es: seq<Event>, k: nat, n: nat, x: nat)
    requires |ws| == |es| + 1 && Run(ws, es) && k <= n < |ws| && Starts(es, k) && OneProcess(es, k, n)
    requires x < |ws[n].log|
    ensures OnDisk(ws[k].disk, ws[n].log[x].id) <==> x < |ws[k].log|
    ensures x < |ws[k].log| ==> WellFormed(ws[n].log[x])
  {
    hide Run, Apply, Inv, OnDisk, Load;
    var id := ws[n].log[x].id;
    StartFacts(ws, es, k);
    LoadedIds(ws[k].policy, ws[k].disk, id);
    StaysAt(ws, es, n, n, x);
    if id in Ids(ws[k].log) {
      var y :| 0 <= y < |ws[k].log| && ws[k].log[y].id == id;
      StaysAt(ws, es, k, n, y);
    }
    if x < |ws[k].log| {
      StaysAt(ws, es, k, n, x);
      assert ws[k].log[x].id in Ids(ws[k].log);
      LoadsWellFormed(ws[k].policy, ws[k].disk);
    }
  }

  lemma LoadsWellFormed(p: Policy, file: seq<Message>)
    ensures forall i :: 0 <= i < |Load(p, file)| ==> WellFormed(Load(p, file)[i])
  {
    LoadCleans(p, file);
  }

  /** The last save of the process that landed by `n` was of a snapshot that holds the id. */
  ghost predicate LastSnapshotHolds(ws: seq<World>, es: seq<Event>, k: nat, n: nat, id: string)
    requires n <= |es| < |ws|
  {
    exists s: nat, t: nat :: Saved(ws, es, k, s, t, n) && id in Ids(ws[s].queue.pending)
  }

  predicate Saved(ws: seq<World>, es: seq<Event>, k: nat, s: nat, t: nat, n: nat)
    requires n <= |es| < |ws|
  {
    k <= s < t < n && SavedBy(ws, es, s, t) && NoneSaved(es, t + 1, n)
  }

  lemma SavedFile(ws: seq<World>, es: seq<Event>, k: nat, s: nat, t: nat, n: nat)
    requires |ws| == |es| + 1 && Run(ws, es) && n < |ws| && k <= n && OneProcess(es, k, n) && Saved(ws, es, k, s, t, n)
    ensures ws[n].disk == Snapshot(ws[s].queue.pending)
  {
    hide Run, SavedBy, NoneSaved, Snapshot;
    SavedSnapshot(ws, es, s, t);
    FileStands(ws, es, t + 1, n);
  }

  /** A process that has saved anything has its file from one of its own snapshots. */
  lemma SomeSaved(ws: seq<World>, es: seq<Event>, k: nat, n: nat) returns (s: nat, t: nat)
    requires |ws| == |es| + 1 && Run(ws, es) && k <= n < |ws| && Starts(es, k) && OneProcess(es, k, n)
    requires !NoneSaved(es, k, n)
    ensures Saved(ws, es, k, s, t, n)
  {
    hide Run, Apply, Snapshot, Flushes;
    var last := LatestSave(es, k, n);
    t := last.value;
    StartFacts(ws, es, k);
    Step(ws, es, t);
    FileFrame(ws[t], es[t]);
    SnapOrigin(ws, es, k, t);
    s :| k <= s < t && Flushes(ws[s], es[s]) && forall u :: s < u < t ==> !Lands(es[u]);
  }

  /** Exactly which messages of a process a crash brings back, whether it loaded or accepted
      them: while nothing has been saved, those it loaded; after that, those with a real
      address that the snapshot of the last landed save holds. */
  lemma ComesBackExactly(ws: seq<World>, es: seq<Event>, k: nat, n: nat, x: nat, p: Policy)
    requires |ws| == |es| + 1 && Run(ws, es) && k <= n < |ws| && Starts(es, k) && OneProcess(es, k, n)
    requires x < |ws[n].log|
    ensures var m := ws[n].log[x];
            m.id in Ids(Boot(ws[n], p).queue.pending) <==>
            WellFormed(m) && ((NoneSaved(es, k, n) && x < |ws[k].log|) || LastSnapshotHolds(ws, es, k, n, m.id))
  {
    hide Run, Apply, Inv, SavedBy, NoneSaved, Snapshot, OnDisk, Load;
    var m := ws[n].log[x];
    LoadedIds(p, ws[n].disk, m.id);
    BootPending(ws[n], p);
    forall s: nat, t: nat | Saved(ws, es, k, s, t, n)
      ensures OnDisk(ws[n].disk, m.id) <==> WellFormed(m) && m.id in Ids(ws[s].queue.pending)
      ensures !NoneSaved(es, k, n)
    {
      SavedIsSave(ws, es, k, s, t, n);
      SavedFile(ws, es, k, s, t, n);
      SnapshotAt(ws, es, s, n, x);
    }
    if NoneSaved(es, k, n) {
      FileStands(ws, es, k, n);
      LoadedExactly(ws, es, k, n, x);
    } else {
      var s, t := SomeSaved(ws, es, k, n);
      assert m.id in Ids(ws[s].queue.pending) ==> LastSnapshotHolds(ws, es, k, n, m.id);
    }
  }

  lemma BootPending(w: World, p: Policy)
    ensures Boot(w, p).queue.pending == Load(p, w.disk)
  {
  }

  lemma SavedIsSave(ws: seq<World>, es: seq<Event>, k: nat, s: nat, t: nat, n: nat)
    requires n <= |es| < |ws| && Saved(ws, es, k, s, t, n)
    ensures k <= s < t < n && !NoneSaved(es, k, n)
  {
    assert es[t].SaveSucceeded?;
  }
}
