/** The ordering guarantee of `EnqueueAfterEarlier` in every interleaving. */
module SchedulerOrder {
  import opened Prelude
  import opened Outbound
  import opened Scheduler

  /** The parts of a message that no transition rewrites. */
  predicate SameLetter(a: Message, b: Message) {
    && a.id == b.id && a.recipient == b.recipient && a.body == b.body && a.fields == b.fields
    && a.bubble == b.bubble && a.enqueuedAt == b.enqueuedAt && a.afterEarlier == b.afterEarlier
  }

  predicate Letters(s: seq<Message>, log: seq<Message>, number: map<string, nat>) {
    forall i :: 0 <= i < |s| ==> s[i].id in number && number[s[i].id] < |log| && SameLetter(s[i], log[number[s[i].id]])
  }

  /** A queued message is still the letter that was accepted. */
  predicate Faithful(w: World) { Letters(w.queue.pending, w.log, w.number) }

  lemma LettersKeep(s: seq<Message>, drop: set<string>, log: seq<Message>, number: map<string, nat>)
    requires Letters(s, log, number)
    ensures Letters(Keep(s, drop), log, number)
  {
    var at := KeepEmbeds(s, drop);
  }

  lemma LettersAppend(s: seq<Message>, m: Message, log: seq<Message>, number: map<string, nat>)
    requires Letters(s, log, number) && m.id !in number
    ensures Letters(s + [m], log + [m], number[m.id := |log|])
  {
  }

  lemma LettersUpdate(s: seq<Message>, i: nat, m: Message, log: seq<Message>, number: map<string, nat>)
    requires Letters(s, log, number) && i < |s| && SameLetter(m, s[i])
    ensures Letters(s[i := m], log, number)
  {
  }

  lemma JudgeKeepsLetter(p: Policy, m: Message, attempts: int, o: Outcome, hasNode: bool, now: Time)
    ensures var v := Judge(p, m, attempts, o, hasNode, now); v.Retry? ==> SameLetter(v.m, m)
  {
  }

  lemma FinishLetters(p: Policy, q: Queue, id: string, attempts: int, o: Outcome, hasNode: bool, now: Time,
                      log: seq<Message>, number: map<string, nat>)
    requires Letters(q.pending, log, number) && id in Ids(q.pending)
    ensures Letters(Finish(p, q, id, attempts, o, hasNode, now).pending, log, number)
  {
    FinishPending(p, q, id, attempts, o, hasNode, now);
    LettersKeep(q.pending, {id}, log, number);
    var i := IndexOf(q.pending, id);
    var v := Judge(p, q.pending[i], attempts, o, hasNode, now);
    JudgeKeepsLetter(p, q.pending[i], attempts, o, hasNode, now);
    if v.Retry? {
      LettersUpdate(q.pending, i, v.m, log, number);
    }
  }

  lemma FaithfulByFinish(w: World, k: nat, hasNode: bool)
    requires Faithful(w) && Enabled(w, Finished(k, hasNode))
    ensures Faithful(Settle(w, k, hasNode))
  {
    FinishLetters(w.policy, w.queue, w.workers[k].id, w.workers[k].attempts, w.workers[k].outcome, hasNode, w.clock,
                  w.log, w.number);
  }

  lemma FaithfulByPick(w: World, k: nat, now: Time, answers: seq<Option<Time>>)
    requires Faithful(w) && k < |w.workers|
    ensures Faithful(Choose(w, k, now, answers))
  {
    PickPending(w, k, now, answers);
    LettersKeep(w.queue.pending, ExpiredIds(w.queue.pending, w.queue.inFlight, now), w.log, w.number);
  }

  lemma FaithfulByBoot(w: World, p: Policy)
    requires UniqueIds(w.disk)
    ensures Faithful(Boot(w, p))
  {
    LoadFacts(p, w.disk);
    NumberingOrdered(Load(p, w.disk));
  }

  lemma FaithfulByStart(w: World, k: nat)
    requires Faithful(w) && Enabled(w, Began(k))
    ensures Faithful(Start(w, k))
  {
    StartPending(w, k);
  }

  lemma FaithfulByAccept(w: World, m: Message)
    requires Faithful(w) && m.id !in w.number
    ensures Faithful(Accept(w, m))
  {
    LettersAppend(w.queue.pending, m, w.log, w.number);
  }

  lemma KeepsFaithful(w: World, e: Event)
    requires Faithful(w) && Enabled(w, e) && UniqueIds(w.disk)
    ensures Faithful(Apply(w, e))
  {
    match e
    case Enqueued(m) => FaithfulByAccept(w, m);
    case Picked(k, now, answers) => FaithfulByPick(w, k, now, answers);
    case Began(k) => FaithfulByStart(w, k);
    case Finished(k, hasNode) => FaithfulByFinish(w, k, hasNode);
    case Restarted(p) => FaithfulByBoot(w, p);
    case SendReturned(_, _) =>
    case _ => QuietFrame(w, e);
  }

  /** Entry `b` of the log must wait for entry `a`: accepted later, same recipient, flagged. */
  predicate WaitsFor(log: seq<Message>, a: int, b: int) {
    0 <= a < b < |log| && log[b].afterEarlier && log[a].recipient == log[b].recipient
  }

  predicate Cleared(log: seq<Message>, touched: set<string>, queued: set<string>) {
    forall a, b :: 0 <= a < b < |log| && WaitsFor(log, a, b) && log[b].id in touched ==> log[a].id !in queued
  }

  /** Once a flagged message is in a worker's hands — and for ever after its
      sending has begun — everything it waits for has left the queue. */
  predicate PinsLast(w: World) {
    && w.begun <= w.number.Keys
    && Cleared(w.log, w.queue.inFlight + w.begun, Ids(w.queue.pending))
  }

  /** What the eligibility test buys: a flagged message is only chosen when
      nothing accepted before it for that recipient is still queued. */
  lemma EligibleClears(q: Queue, now: Time, i: nat, log: seq<Message>, number: map<string, nat>, a: int, b: int)
    requires Numbered(log, number) && InOrder(q.pending, number) && Letters(q.pending, log, number)
    requires i < |q.pending| && Eligible(q, now, i)
    requires WaitsFor(log, a, b) && log[b].id == q.pending[i].id
    ensures log[a].id !in Ids(q.pending)
  {
    var s := q.pending;
    forall j | 0 <= j < |s|
      ensures s[j].id != log[a].id
    {
      assert j < i ==> s[j].recipient != s[i].recipient;
      assert number[s[i].id] == b && number[log[a].id] == a;
    }
  }

  lemma ChoiceClears(q: Queue, now: Time, i: nat, log: seq<Message>, number: map<string, nat>, touched: set<string>)
    requires Numbered(log, number) && InOrder(q.pending, number) && Letters(q.pending, log, number)
    requires i < |q.pending| && Eligible(q, now, i)
    requires Cleared(log, touched, Ids(q.pending))
    ensures Cleared(log, touched + {q.pending[i].id}, Ids(q.pending))
  {
    forall a, b | 0 <= a < b < |log| && WaitsFor(log, a, b) && log[b].id == q.pending[i].id
      ensures log[a].id !in Ids(q.pending)
    {
      EligibleClears(q, now, i, log, number, a, b);
    }
  }

  lemma ReapFacts(q: Queue, now: Time, log: seq<Message>, number: map<string, nat>)
    requires InOrder(q.pending, number) && Letters(q.pending, log, number)
    ensures InOrder(Reap(q, now).pending, number) && Letters(Reap(q, now).pending, log, number)
    ensures Ids(Reap(q, now).pending) <= Ids(q.pending)
  {
    var gone := ExpiredIds(q.pending, q.inFlight, now);
    KeepIds(q.pending, gone);
    KeepInOrder(q.pending, gone, number);
    LettersKeep(q.pending, gone, log, number);
  }

  lemma PickClears(q: Queue, now: Time, answers: seq<Option<Time>>, log: seq<Message>, number: map<string, nat>,
                   begun: set<string>)
    requires Numbered(log, number) && InOrder(q.pending, number) && Letters(q.pending, log, number)
    requires Cleared(log, q.inFlight + begun, Ids(q.pending))
    ensures var q' := PickDue(q, now, answers).0;
            Cleared(log, q'.inFlight + begun, Ids(q'.pending))
  {
    ReapFacts(q, now, log, number);
    var q1 := Reap(q, now);
    var best := BestUpTo(q1, now, answers, |q1.pending|);
    if best.Some? {
      ChoiceClears(q1, now, best.value, log, number, q.inFlight + begun);
      var id := q1.pending[best.value].id;
      assert (q.inFlight + begun) + {id} == (q.inFlight + {id}) + begun;
    }
  }

  lemma PinsLastByPick(w: World, k: nat, now: Time, answers: seq<Option<Time>>)
    requires PinsLast(w) && Ordered(w) && Faithful(w) && k < |w.workers|
    ensures PinsLast(Choose(w, k, now, answers))
  {
    PickClears(w.queue, now, answers, w.log, w.number, w.begun);
  }

  lemma AppendClears(log: seq<Message>, m: Message, touched: set<string>, queued: set<string>)
    requires Cleared(log, touched, queued) && m.id !in touched
    requires forall n :: 0 <= n < |log| ==> log[n].id != m.id
    ensures Cleared(log + [m], touched, queued + {m.id})
  {
    var log' := log + [m];
    forall a, b | 0 <= a < b < |log'| && WaitsFor(log', a, b) && log'[b].id in touched
      ensures log'[a].id !in queued + {m.id}
    {
      assert b < |log|;
      assert WaitsFor(log, a, b);
    }
  }

  lemma PinsLastByAccept(w: World, m: Message)
    requires PinsLast(w) && Ordered(w) && Exclusive(w) && m.id !in w.number
    ensures PinsLast(Accept(w, m))
  {
    AppendIds(w.queue.pending, m);
    assert Ids(w.queue.pending) <= w.number.Keys;
    AppendClears(w.log, m, w.queue.inFlight + w.begun, Ids(w.queue.pending));
  }

  lemma PinsLastByStart(w: World, k: nat)
    requires PinsLast(w) && Exclusive(w) && Ordered(w) && Enabled(w, Began(k))
    ensures PinsLast(Start(w, k))
  {
    var s := w.queue.pending;
    var i := IndexOf(s, w.workers[k].id);
    StartPending(w, k);
    UpdateKeepsIds(s, i, s[i].(attempts := s[i].attempts + 1));
    assert w.workers[k].id in HeldIds(w.workers);
  }

  lemma PinsLastByFinish(w: World, k: nat, hasNode: bool)
    requires PinsLast(w) && Enabled(w, Finished(k, hasNode))
    ensures PinsLast(Settle(w, k, hasNode))
  {
    SettledIds(w, k, hasNode);
  }

  lemma KeepsPinsLast(w: World, e: Event)
    requires PinsLast(w) && Ordered(w) && Exclusive(w) && Faithful(w) && Enabled(w, e)
    ensures PinsLast(Apply(w, e))
  {
    match e
    case Enqueued(m) => PinsLastByAccept(w, m);
    case Picked(k, now, answers) => PinsLastByPick(w, k, now, answers);
    case Began(k) => PinsLastByStart(w, k);
    case Finished(k, hasNode) => PinsLastByFinish(w, k, hasNode);
    case SendReturned(_, _) =>
    case Restarted(_) =>
    case _ => QuietFrame(w, e);
  }
}
