/** Every interleaving of the outbound queue: workers that release the lock across
    a send, one flusher, a clock, a disk, crashes. History fields (`log` onwards)
    record one process run and are reset by a restart. */
module Scheduler {
  import opened Prelude
  import opened Fields
  import opened Outbound

  datatype Worker =
    | Idle
    | Holding(id: string)
    | Sending(id: string, attempts: int, propagated: bool)
    | Returned(id: string, attempts: int, propagated: bool, outcome: Outcome)
  {
    predicate Busy() { !Idle? }

    /** Between the two critical sections of `attempt`. */
    predicate Open() { Sending? || Returned? }
  }

  datatype Flusher =
    | Waiting
    | Delaying
    | Saving(snap: seq<Message>, final: bool)
    | Stopped

  datatype Fate = WasDelivered | WasBudgetFailed | WasStampRefused | WasExpired

  datatype World = World(
    policy: Policy,
    queue: Queue,
    workers: seq<Worker>,
    clock: Time,
    disk: seq<Message>,
    flusher: Flusher,
    saveFailed: bool,
    log: seq<Message>,           // accepted messages, in acceptance order
    number: map<string, nat>,    // id -> position in `log`
    fate: map<string, Fate>,     // ids that have left the queue, and why
    sends: map<string, nat>,     // settled sends that were not deferrals
    open: map<string, int>,      // attempts before the send now in progress
    begun: set<string>)          // ids whose sending ever began

  datatype Event =
    | Enqueued(m: Message)
    | Picked(k: nat, now: Time, answers: seq<Option<Time>>)
    | Began(k: nat)
    | SendReturned(k: nat, outcome: Outcome)
    | Finished(k: nat, hasNode: bool)
    | Tick(t: Time)
    | KickTaken
    | SnapshotTaken
    | SaveSucceeded
    | SaveErred
    | Cancelled
    | Restarted(policy: Policy)

  /** An `Enqueue` call builds this message: no attempts yet, due at once, routed by the policy. */
  predicate IsNew(p: Policy, m: Message) {
    m.attempts == 0 && m.nextAttempt == None && m.enqueuedAt.Some? && m.propagated == p.always
  }

  /** What the queue's own constructor builds is such a message. */
  lemma ConstructedIsNew(p: Policy, id: string, recipient: Bytes, body: Bytes, fields: Option<FieldMap>,
                         bubble: Option<nat>, afterEarlier: bool, at: Time)
    ensures var m := NewMessage(p, id, recipient, body, fields, bubble, afterEarlier, at);
            && IsNew(p, m) && m.id == id && m.recipient == recipient && m.body == body && m.fields == fields
            && m.bubble == bubble && m.afterEarlier == afterEarlier && m.enqueuedAt == Some(at)
  {
  }

  predicate Enabled(w: World, e: Event) {
    match e
    case Enqueued(m) => IsNew(w.policy, m) && m.id !in w.number && m.enqueuedAt.value <= w.clock
    case Picked(k, now, _) => k < |w.workers| && w.workers[k].Idle? && now <= w.clock
    case Began(k) => k < |w.workers| && w.workers[k].Holding? && w.workers[k].id in Ids(w.queue.pending)
    case SendReturned(k, _) => k < |w.workers| && w.workers[k].Sending?
    case Finished(k, _) => k < |w.workers| && w.workers[k].Returned? && w.workers[k].id in Ids(w.queue.pending)
    case Tick(t) => w.clock <= t
    case KickTaken => w.flusher.Waiting? && w.queue.kicked
    case SnapshotTaken => w.flusher.Delaying?
    case SaveSucceeded => w.flusher.Saving?
    case SaveErred => w.flusher.Saving?
    case Cancelled => w.flusher.Waiting? || w.flusher.Delaying?
    case Restarted(p) => p.Valid()
  }

  function Count(sends: map<string, nat>, id: string): nat { if id in sends then sends[id] else 0 }

  function Numbering(s: seq<Message>): map<string, nat> { map id | id in Ids(s) :: IndexOf(s, id) }

  function FlushFrom(w: World, final: bool): World {
    if w.queue.dirty then
      w.(queue := w.queue.(dirty := false), flusher := Saving(Snapshot(w.queue.pending), final), saveFailed := false)
    else
      w.(flusher := if final then Stopped else Waiting)
  }

  function AfterSave(f: Flusher): Flusher
    requires f.Saving?
  {
    if f.final then Stopped else Waiting
  }

  function Accept(w: World, m: Message): World {
    var q := Enqueue(w.queue, m);
    if Full(w.queue) then w.(queue := q)
    else w.(queue := q, log := w.log + [m], number := w.number[m.id := |w.log|], sends := w.sends[m.id := 0])
  }

  function Expire(fate: map<string, Fate>, gone: set<string>): (r: map<string, Fate>)
    ensures r.Keys == fate.Keys + gone
  {
    fate + map id | id in gone :: WasExpired
  }

  function Choose(w: World, k: nat, now: Time, answers: seq<Option<Time>>): World
    requires k < |w.workers|
  {
    var r := PickDue(w.queue, now, answers);
    var gone := ExpiredIds(w.queue.pending, w.queue.inFlight, now);
    var w1 := w.(queue := r.0, fate := Expire(w.fate, gone));
    if r.1.None? then w1
    else w1.(workers := w.workers[k := Holding(r.0.pending[r.1.value].id)])
  }

  function Start(w: World, k: nat): World
    requires Enabled(w, Began(k))
  {
    var id := w.workers[k].id;
    var m := w.queue.pending[IndexOf(w.queue.pending, id)];
    w.(queue := Bump(w.queue, id),
       workers := w.workers[k := Sending(id, m.attempts + 1, m.propagated)],
       open := w.open[id := m.attempts],
       begun := w.begun + {id})
  }

  function FateOf(v: Verdict): Fate
    requires !v.Retry?
  {
    match v
    case Delivered => WasDelivered
    case StampRefused => WasStampRefused
    case BudgetFailed => WasBudgetFailed
  }

  function Settle(w: World, k: nat, hasNode: bool): World
    requires Enabled(w, Finished(k, hasNode))
  {
    var Returned(id, attempts, _, o) := w.workers[k];
    var m := w.queue.pending[IndexOf(w.queue.pending, id)];
    var v := Judge(w.policy, m, attempts, o, hasNode, w.clock);
    w.(queue := Finish(w.policy, w.queue, id, attempts, o, hasNode, w.clock),
       workers := w.workers[k := Idle],
       open := w.open - {id},
       sends := if o.Deferral() then w.sends else w.sends[id := Count(w.sends, id) + 1],
       fate := if v.Retry? then w.fate else w.fate[id := FateOf(v)])
  }

  function Boot(w: World, p: Policy): World {
    var s := Load(p, w.disk);
    World(p, Queue(s, {}, false, false, 0), seq(|w.workers|, _ => Idle), w.clock, w.disk, Waiting, false,
          s, Numbering(s), map[], map id | id in Ids(s) :: 0, map[], {})
  }

  function Apply(w: World, e: Event): World
    requires Enabled(w, e)
  {
    match e
    case Enqueued(m) => Accept(w, m)
    case Picked(k, now, answers) => Choose(w, k, now, answers)
    case Began(k) => Start(w, k)
    case SendReturned(k, o) =>
      w.(workers := w.workers[k := Returned(w.workers[k].id, w.workers[k].attempts, w.workers[k].propagated, o)])
    case Finished(k, hasNode) => Settle(w, k, hasNode)
    case Tick(t) => w.(clock := t)
    case KickTaken => w.(queue := w.queue.(kicked := false), flusher := Delaying)
    case SnapshotTaken => FlushFrom(w, false)
    case SaveSucceeded => w.(disk := w.flusher.snap, flusher := AfterSave(w.flusher))
    case SaveErred => w.(queue := w.queue.(dirty := true), flusher := AfterSave(w.flusher), saveFailed := true)
    case Cancelled => FlushFrom(w, true)
    case Restarted(p) => Boot(w, p)
  }

  /** A first start: whatever file an earlier process left, loaded under a valid policy. */
  predicate Init(w: World) {
    && w.policy.Valid()
    && UniqueIds(w.disk)
    && (forall i :: 0 <= i < |w.disk| ==> w.disk[i].attempts >= 0 && w.disk[i] == Erase(w.disk[i]))
    && w == Boot(w, w.policy)
  }

  // ---- Order ---------------------------------------------------------------

  predicate Numbered(log: seq<Message>, number: map<string, nat>) {
    && (forall id :: id in number ==> number[id] < |log| && log[number[id]].id == id)
    && (forall n :: 0 <= n < |log| ==> log[n].id in number && number[log[n].id] == n)
  }

  predicate InOrder(s: seq<Message>, number: map<string, nat>) {
    && (forall i :: 0 <= i < |s| ==> s[i].id in number)
    && (forall i, j :: 0 <= i < j < |s| ==> number[s[i].id] < number[s[j].id])
  }

  /** Pending is the accepted log with some entries gone, never reordered. */
  predicate Ordered(w: World) {
    Numbered(w.log, w.number) && InOrder(w.queue.pending, w.number)
  }

  lemma OrderedUnique(s: seq<Message>, number: map<string, nat>)
    requires InOrder(s, number)
    ensures UniqueIds(s)
  {
  }

  lemma KeepInOrder(s: seq<Message>, drop: set<string>, number: map<string, nat>)
    requires InOrder(s, number)
    ensures InOrder(Keep(s, drop), number)
  {
    var at := KeepEmbeds(s, drop);
  }

  lemma AppendInOrder(s: seq<Message>, m: Message, log: seq<Message>, number: map<string, nat>)
    requires Numbered(log, number) && InOrder(s, number) && m.id !in number
    ensures Numbered(log + [m], number[m.id := |log|])
    ensures InOrder(s + [m], number[m.id := |log|])
  {
  }

  lemma NumberingOrdered(s: seq<Message>)
    requires UniqueIds(s)
    ensures Numbered(s, Numbering(s)) && InOrder(s, Numbering(s))
  {
    forall n | 0 <= n < |s|
      ensures s[n].id in Ids(s) && IndexOf(s, s[n].id) == n
    {
    }
  }

  lemma {:induction false} LoadFacts(p: Policy, file: seq<Message>)
    requires UniqueIds(file)
    ensures UniqueIds(Load(p, file))
    ensures forall i :: 0 <= i < |Load(p, file)| ==>
              exists j :: 0 <= j < |file| && Load(p, file)[i] == Demote(p, file[j])
  {
    if |file| != 0 {
      LoadFacts(p, file[..|file| - 1]);
    }
  }

  predicate Quiet(e: Event) {
    e.Tick? || e.KickTaken? || e.SnapshotTaken? || e.SaveSucceeded? || e.SaveErred? || e.Cancelled?
  }

  /** The clock and the flusher touch neither the messages nor their holders. */
  lemma QuietFrame(w: World, e: Event)
    requires Enabled(w, e) && Quiet(e)
    ensures var w' := Apply(w, e);
            && w'.queue.pending == w.queue.pending && w'.queue.inFlight == w.queue.inFlight
            && w'.policy == w.policy && w'.workers == w.workers && w'.log == w.log && w'.number == w.number
            && w'.fate == w.fate && w'.sends == w.sends && w'.open == w.open && w'.begun == w.begun
  {
  }

  // Each transition only appends to `pending`, drops by id, or rewrites one entry in place.

  lemma PickPending(w: World, k: nat, now: Time, answers: seq<Option<Time>>)
    requires k < |w.workers|
    ensures var gone := ExpiredIds(w.queue.pending, w.queue.inFlight, now);
            Choose(w, k, now, answers).queue.pending == Keep(w.queue.pending, gone)
  {
    KeepAll(w.queue.pending);
  }

  lemma StartPending(w: World, k: nat)
    requires Enabled(w, Began(k))
    ensures var s := w.queue.pending;
            var i := IndexOf(s, w.workers[k].id);
            Start(w, k).queue.pending == s[i := s[i].(attempts := s[i].attempts + 1)]
  {
  }

  lemma OrderedByAccept(w: World, m: Message)
    requires Ordered(w) && m.id !in w.number
    ensures Ordered(Accept(w, m))
  {
    AppendInOrder(w.queue.pending, m, w.log, w.number);
  }

  lemma OrderedByPick(w: World, k: nat, now: Time, answers: seq<Option<Time>>)
    requires Ordered(w) && k < |w.workers|
    ensures Ordered(Choose(w, k, now, answers))
  {
    PickPending(w, k, now, answers);
    KeepInOrder(w.queue.pending, ExpiredIds(w.queue.pending, w.queue.inFlight, now), w.number);
  }

  lemma OrderedByStart(w: World, k: nat)
    requires Ordered(w) && Enabled(w, Began(k))
    ensures Ordered(Start(w, k))
  {
    StartPending(w, k);
  }

  lemma SettledPending(w: World, k: nat, hasNode: bool)
    requires Enabled(w, Finished(k, hasNode))
    ensures var s, id := w.queue.pending, w.workers[k].id;
            var i := IndexOf(s, id);
            var s' := Settle(w, k, hasNode).queue.pending;
            s' == Keep(s, {id}) || (|s'| == |s| && s' == s[i := s'[i]] && s'[i].id == id)
  {
    hide Judge, IndexOf;
    FinishPending(w.policy, w.queue, w.workers[k].id, w.workers[k].attempts, w.workers[k].outcome, hasNode, w.clock);
  }

  lemma OrderedByFinish(w: World, k: nat, hasNode: bool)
    requires Ordered(w) && Enabled(w, Finished(k, hasNode))
    ensures Ordered(Settle(w, k, hasNode))
  {
    hide Judge, IndexOf, Finish;
    SettledPending(w, k, hasNode);
    KeepInOrder(w.queue.pending, {w.workers[k].id}, w.number);
  }

  lemma OrderedByBoot(w: World, p: Policy)
    requires UniqueIds(w.disk)
    ensures Ordered(Boot(w, p))
  {
    LoadFacts(p, w.disk);
    NumberingOrdered(Load(p, w.disk));
  }

  lemma KeepsOrdered(w: World, e: Event)
    requires Ordered(w) && Enabled(w, e) && UniqueIds(w.disk)
    ensures Ordered(Apply(w, e))
  {
    match e
    case Enqueued(m) => OrderedByAccept(w, m);
    case Picked(k, now, answers) => OrderedByPick(w, k, now, answers);
    case Began(k) => OrderedByStart(w, k);
    case Finished(k, hasNode) => OrderedByFinish(w, k, hasNode);
    case Restarted(p) => OrderedByBoot(w, p);
    case SendReturned(_, _) =>
    case _ => QuietFrame(w, e);
  }

  // ---- Conservation and mutual exclusion -----------------------------------

  function HeldIds(workers: seq<Worker>): set<string> {
    set k | 0 <= k < |workers| && workers[k].Busy() :: workers[k].id
  }

  predicate HoldApart(workers: seq<Worker>) {
    forall k, l :: 0 <= k < l < |workers| && workers[k].Busy() && workers[l].Busy() ==> workers[k].id != workers[l].id
  }

  /** No two workers hold one message, and the in-flight marks are exactly what
      the workers hold, all of it still queued. */
  predicate Exclusive(w: World) {
    && HoldApart(w.workers)
    && w.queue.inFlight == HeldIds(w.workers)
    && w.queue.inFlight <= Ids(w.queue.pending)
  }

  /** Every accepted message is queued or has exactly one fate, never both. */
  predicate Conserved(w: World) {
    && w.number.Keys == Ids(w.queue.pending) + w.fate.Keys
    && Ids(w.queue.pending) !! w.fate.Keys
  }

  lemma TakeUp(workers: seq<Worker>, k: nat, x: Worker)
    requires k < |workers| && workers[k].Idle? && x.Busy() && HoldApart(workers) && x.id !in HeldIds(workers)
    ensures HoldApart(workers[k := x]) && HeldIds(workers[k := x]) == HeldIds(workers) + {x.id}
  {
    var after := workers[k := x];
    assert forall l :: 0 <= l < |workers| && l != k ==> after[l] == workers[l];
    assert forall l :: 0 <= l < |workers| && workers[l].Busy() ==> workers[l].id in HeldIds(workers);
    assert after[k] == x;
  }

  lemma CarryOn(workers: seq<Worker>, k: nat, x: Worker)
    requires k < |workers| && workers[k].Busy() && x.Busy() && x.id == workers[k].id && HoldApart(workers)
    ensures HoldApart(workers[k := x]) && HeldIds(workers[k := x]) == HeldIds(workers)
  {
    var after := workers[k := x];
    assert forall l :: 0 <= l < |workers| ==> after[l].Busy() == workers[l].Busy();
    assert forall l :: 0 <= l < |workers| && workers[l].Busy() ==> after[l].id == workers[l].id;
  }

  lemma LetGo(workers: seq<Worker>, k: nat)
    requires k < |workers| && workers[k].Busy() && HoldApart(workers)
    ensures HoldApart(workers[k := Idle]) && HeldIds(workers[k := Idle]) == HeldIds(workers) - {workers[k].id}
  {
    var after := workers[k := Idle];
    assert forall l :: 0 <= l < |workers| && l != k ==> after[l] == workers[l];
  }

  lemma ExclusiveByAccept(w: World, m: Message)
    requires Exclusive(w)
    ensures Exclusive(Accept(w, m))
  {
    AppendIds(w.queue.pending, m);
  }

  lemma ExclusiveByPick(w: World, k: nat, now: Time, answers: seq<Option<Time>>)
    requires Exclusive(w) && k < |w.workers| && w.workers[k].Idle?
    ensures Exclusive(Choose(w, k, now, answers))
  {
    var gone := ExpiredIds(w.queue.pending, w.queue.inFlight, now);
    PickPending(w, k, now, answers);
    KeepIds(w.queue.pending, gone);
    NobodyHoldsExpired(w.queue.pending, w.queue.inFlight, now);
    var r := PickDue(w.queue, now, answers);
    if r.1.Some? {
      TakeUp(w.workers, k, Holding(r.0.pending[r.1.value].id));
    }
  }

  lemma ExclusiveByStart(w: World, k: nat)
    requires Exclusive(w) && Enabled(w, Began(k))
    ensures Exclusive(Start(w, k))
  {
    var s := w.queue.pending;
    var i := IndexOf(s, w.workers[k].id);
    StartPending(w, k);
    UpdateKeepsIds(s, i, s[i].(attempts := s[i].attempts + 1));
    CarryOn(w.workers, k, Start(w, k).workers[k]);
  }

  lemma ExclusiveByFinish(w: World, k: nat, hasNode: bool)
    requires Exclusive(w) && Enabled(w, Finished(k, hasNode))
    ensures Exclusive(Settle(w, k, hasNode))
  {
    SettledIds(w, k, hasNode);
    LetGo(w.workers, k);
  }

  /** A settled send removes at most its own message. */
  lemma SettledIds(w: World, k: nat, hasNode: bool)
    requires Enabled(w, Finished(k, hasNode))
    ensures var ids := Ids(w.queue.pending);
            var w' := Settle(w, k, hasNode);
            var id := w.workers[k].id;
            || (w'.fate == w.fate && Ids(w'.queue.pending) == ids)
            || (w'.fate.Keys == w.fate.Keys + {id} && Ids(w'.queue.pending) == ids - {id})
  {
    FinishIds(w.policy, w.queue, w.workers[k].id, w.workers[k].attempts, w.workers[k].outcome, hasNode, w.clock);
  }

  lemma ExclusiveByReturn(w: World, k: nat, o: Outcome)
    requires Exclusive(w) && Enabled(w, SendReturned(k, o))
    ensures Exclusive(Apply(w, SendReturned(k, o)))
  {
    CarryOn(w.workers, k, Apply(w, SendReturned(k, o)).workers[k]);
  }

  lemma KeepsExclusive(w: World, e: Event)
    requires Exclusive(w) && Enabled(w, e)
    ensures Exclusive(Apply(w, e))
  {
    match e
    case Enqueued(m) => ExclusiveByAccept(w, m);
    case Picked(k, now, answers) => ExclusiveByPick(w, k, now, answers);
    case Began(k) => ExclusiveByStart(w, k);
    case SendReturned(k, o) => ExclusiveByReturn(w, k, o);
    case Finished(k, hasNode) => ExclusiveByFinish(w, k, hasNode);
    case Restarted(_) =>
    case _ => QuietFrame(w, e);
  }

  lemma ExpireConserves(all: set<string>, queued: set<string>, left: set<string>, gone: set<string>)
    requires all == queued + left && queued !! left && gone <= queued
    ensures all == (queued - gone) + (left + gone) && (queued - gone) !! (left + gone)
  {
  }

  lemma ConservedByAccept(w: World, m: Message)
    requires Conserved(w) && m.id !in w.number
    ensures Conserved(Accept(w, m))
  {
    AppendIds(w.queue.pending, m);
  }

  lemma ConservedByPick(w: World, k: nat, now: Time, answers: seq<Option<Time>>)
    requires Conserved(w) && k < |w.workers|
    ensures Conserved(Choose(w, k, now, answers))
  {
    var gone := ExpiredIds(w.queue.pending, w.queue.inFlight, now);
    PickPending(w, k, now, answers);
    KeepIds(w.queue.pending, gone);
    NobodyHoldsExpired(w.queue.pending, w.queue.inFlight, now);
    ExpireConserves(w.number.Keys, Ids(w.queue.pending), w.fate.Keys, gone);
  }

  lemma ConservedByStart(w: World, k: nat)
    requires Conserved(w) && Enabled(w, Began(k))
    ensures Conserved(Start(w, k))
  {
    var s := w.queue.pending;
    var i := IndexOf(s, w.workers[k].id);
    StartPending(w, k);
    UpdateKeepsIds(s, i, s[i].(attempts := s[i].attempts + 1));
  }

  lemma ConservedByFinish(w: World, k: nat, hasNode: bool)
    requires Conserved(w) && Enabled(w, Finished(k, hasNode))
    ensures Conserved(Settle(w, k, hasNode))
  {
    SettledIds(w, k, hasNode);
  }

  lemma KeepsConserved(w: World, e: Event)
    requires Conserved(w) && Enabled(w, e)
    ensures Conserved(Apply(w, e))
  {
    match e
    case Enqueued(m) => ConservedByAccept(w, m);
    case Picked(k, now, answers) => ConservedByPick(w, k, now, answers);
    case Began(k) => ConservedByStart(w, k);
    case Finished(k, hasNode) => ConservedByFinish(w, k, hasNode);
    case SendReturned(_, _) =>
    case Restarted(_) =>
    case _ => QuietFrame(w, e);
  }
}
