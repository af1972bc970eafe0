/** The outbound retry queue as pure transitions on its lock-protected state
    (internal/service/outbound.go). `OutboundQueue` refines these with loops and
    in-place updates; `Scheduler` interleaves them across workers. */
module Outbound {
  import opened Prelude
  import opened Fields

  const MAX_PENDING: nat := 10000
  const MAX_QUEUE_AGE: Time := 24 * HOUR
  const MAX_BACKOFF: Time := 60 * SECOND
  const HASH_LEN: nat := 16

  datatype Message = Message(
    id: string,
    recipient: Bytes,
    body: Bytes,
    fields: Option<FieldMap>,
    bubble: Option<nat>,
    attempts: int,
    nextAttempt: Option<Time>,
    enqueuedAt: Option<Time>,
    propagated: bool,
    afterEarlier: bool)

  datatype Policy = Policy(
    maxAttempts: int,
    retryWait: Time,
    pathRequestWait: Time,
    pathlessTries: int,
    fallback: bool,
    always: bool,
    directAttempts: int)
  {
    predicate Valid() { 1 <= maxAttempts && 0 <= retryWait }

    predicate PropagationOn() { fallback || always }
  }

  datatype Queue = Queue(
    pending: seq<Message>,
    inFlight: set<string>,
    dirty: bool,
    kicked: bool,
    dropped: nat)

  /** How one send returned. */
  datatype Outcome =
    | Sent(msgId: Bytes)
    | NoNode
    | StampBusy
    | StampTooHigh
    | RecipientUnknown
    | Failed
  {
    /** A wait, not a failure: the attempt is handed back. */
    predicate Deferral() { NoNode? || StampBusy? }
  }

  function Ids(s: seq<Message>): set<string> { set i | 0 <= i < |s| :: s[i].id }

  predicate UniqueIds(s: seq<Message>) {
    forall i, j :: 0 <= i < j < |s| ==> s[i].id != s[j].id
  }

  function IndexOf(s: seq<Message>, id: string): (i: nat)
    requires id in Ids(s)
    ensures i < |s| && s[i].id == id
    ensures forall j :: 0 <= j < i ==> s[j].id != id
  {
    if s[0].id == id then 0 else
      assert forall j :: 1 <= j < |s| ==> s[j] == s[1..][j - 1];
      1 + IndexOf(s[1..], id)
  }

  /** The messages of `s` whose id is not in `drop`, in their old order. */
  function Keep(s: seq<Message>, drop: set<string>): (r: seq<Message>)
    ensures |r| <= |s|
  {
    if |s| == 0 then []
    else
      var front := Keep(s[..|s| - 1], drop);
      if s[|s| - 1].id in drop then front else front + [s[|s| - 1]]
  }

  /** `r` is what is left of `s` without the dropped ids, found at these places. */
  predicate Embeds(s: seq<Message>, drop: set<string>, r: seq<Message>, at: seq<nat>) {
    && |at| == |r|
    && (forall k :: 0 <= k < |at| ==> at[k] < |s| && r[k] == s[at[k]] && s[at[k]].id !in drop)
    && (forall k, l :: 0 <= k < l < |at| ==> at[k] < at[l])
    && (forall i :: 0 <= i < |s| && s[i].id !in drop ==> i in at)
  }

  lemma EmbedsSkip(s: seq<Message>, drop: set<string>, r: seq<Message>, at: seq<nat>, m: Message)
    requires Embeds(s, drop, r, at) && m.id in drop
    ensures Embeds(s + [m], drop, r, at)
  {
  }

  lemma EmbedsTake(s: seq<Message>, drop: set<string>, r: seq<Message>, at: seq<nat>, m: Message)
    requires Embeds(s, drop, r, at) && m.id !in drop
    ensures Embeds(s + [m], drop, r + [m], at + [|s|])
  {
    var at' := at + [|s|];
    assert at'[|at|] == |s|;
    forall i | 0 <= i < |s| && s[i].id !in drop
      ensures i in at'
    {
      var k :| 0 <= k < |at| && at[k] == i;
      assert at'[k] == i;
    }
  }

  /** `Keep` is an order-preserving embedding that misses nothing it should keep. */
  lemma {:induction false} KeepEmbeds(s: seq<Message>, drop: set<string>) returns (at: seq<nat>)
    ensures |at| == |Keep(s, drop)|
    ensures forall k :: 0 <= k < |at| ==> at[k] < |s| && Keep(s, drop)[k] == s[at[k]] && s[at[k]].id !in drop
    ensures forall k, l :: 0 <= k < l < |at| ==> at[k] < at[l]
    ensures forall i :: 0 <= i < |s| && s[i].id !in drop ==> i in at
  {
    at := KeepPlaces(s, drop);
  }

  lemma {:induction false} KeepPlaces(s: seq<Message>, drop: set<string>) returns (at: seq<nat>)
    ensures Embeds(s, drop, Keep(s, drop), at)
  {
    if |s| == 0 {
      at := [];
    } else {
      hide Embeds;
      var n := |s| - 1;
      var front := s[..n];
      at := KeepPlaces(front, drop);
      assert s == front + [s[n]];
      if s[n].id in drop {
        EmbedsSkip(front, drop, Keep(front, drop), at, s[n]);
      } else {
        EmbedsTake(front, drop, Keep(front, drop), at, s[n]);
        at := at + [n];
      }
    }
  }

  lemma KeepIds(s: seq<Message>, drop: set<string>)
    ensures Ids(Keep(s, drop)) == Ids(s) - drop
  {
    var at := KeepEmbeds(s, drop);
    var r := Keep(s, drop);
    forall id | id in Ids(s) - drop
      ensures id in Ids(r)
    {
      var i :| 0 <= i < |s| && s[i].id == id;
      assert i in at;
      var k :| 0 <= k < |at| && at[k] == i;
      assert r[k].id == id;
    }
  }

  lemma KeepUnique(s: seq<Message>, drop: set<string>)
    requires UniqueIds(s)
    ensures UniqueIds(Keep(s, drop))
  {
    var at := KeepEmbeds(s, drop);
  }

  lemma {:induction false} KeepTwice(s: seq<Message>, a: set<string>, b: set<string>)
    ensures Keep(Keep(s, a), b) == Keep(s, a + b)
  {
    if |s| != 0 {
      KeepTwice(s[..|s| - 1], a, b);
      var front := Keep(s[..|s| - 1], a);
      var last := s[|s| - 1];
      if last.id !in a {
        assert (front + [last])[..|front|] == front;
      }
    }
  }

  lemma {:induction false} KeepAll(s: seq<Message>)
    ensures Keep(s, {}) == s
  {
    if |s| != 0 {
      KeepAll(s[..|s| - 1]);
    }
  }

  lemma UpdateKeepsIds(s: seq<Message>, i: nat, m: Message)
    requires i < |s| && m.id == s[i].id
    ensures Ids(s[i := m]) == Ids(s)
    ensures UniqueIds(s) ==> UniqueIds(s[i := m])
  {
    var t := s[i := m];
    assert forall k :: 0 <= k < |s| ==> t[k].id == s[k].id;
  }

  lemma AppendIds(s: seq<Message>, m: Message)
    ensures Ids(s + [m]) == Ids(s) + {m.id}
  {
    var t := s + [m];
    assert forall k :: 0 <= k < |s| ==> t[k] == s[k];
    assert t[|s|] == m;
  }

  // ---- Enqueue -------------------------------------------------------------

  function Persist(q: Queue): Queue { q.(dirty := true, kicked := true) }

  function NewMessage(p: Policy, id: string, recipient: Bytes, body: Bytes, fields: Option<FieldMap>,
                      bubble: Option<nat>, afterEarlier: bool, at: Time): Message {
    Message(id, recipient, body, fields, bubble, 0, None, Some(at), p.always, afterEarlier)
  }

  predicate Full(q: Queue) { |q.pending| >= MAX_PENDING }

  function Enqueue(q: Queue, m: Message): Queue {
    if Full(q) then q.(dropped := q.dropped + 1)
    else Persist(q.(pending := q.pending + [m]))
  }

  // ---- Pick ----------------------------------------------------------------

  predicate Expired(m: Message, inFlight: set<string>, now: Time) {
    m.id !in inFlight && m.enqueuedAt.Some? && now - m.enqueuedAt.value > MAX_QUEUE_AGE
  }

  function ExpiredIds(s: seq<Message>, inFlight: set<string>, now: Time): set<string> {
    set i | 0 <= i < |s| && Expired(s[i], inFlight, now) :: s[i].id
  }

  lemma NobodyHoldsExpired(s: seq<Message>, inFlight: set<string>, now: Time)
    ensures ExpiredIds(s, inFlight, now) !! inFlight
    ensures ExpiredIds(s, inFlight, now) <= Ids(s)
  {
  }

  function Reap(q: Queue, now: Time): Queue {
    var gone := ExpiredIds(q.pending, q.inFlight, now);
    if gone == {} then q else Persist(q.(pending := Keep(q.pending, gone)))
  }

  predicate HasEarlierFor(s: seq<Message>, n: nat, recipient: Bytes)
    requires n <= |s|
  {
    exists j :: 0 <= j < n && s[j].recipient == recipient
  }

  predicate Eligible(q: Queue, now: Time, i: nat)
    requires i < |q.pending|
  {
    var m := q.pending[i];
    && m.id !in q.inFlight
    && (m.nextAttempt.Some? ==> m.nextAttempt.value <= now)
    && (m.afterEarlier ==> !HasEarlierFor(q.pending, i, m.recipient))
  }

  /** What `LastAnnounceFor` answered while the scan stood at index `i`; `None` is "never heard".
      Two entries may get different answers even for one recipient: announces land mid-scan. */
  function Heard(answers: seq<Option<Time>>, i: nat): Option<Time> {
    if i < |answers| then answers[i] else None
  }

  /** Strict preference: known beats unknown, later beats earlier. */
  predicate Fresher(a: Option<Time>, b: Option<Time>) {
    a.Some? && (b.None? || a.value > b.value)
  }

  /** The scan of `pickDue`, one index at a time. */
  function BestUpTo(q: Queue, now: Time, answers: seq<Option<Time>>, n: nat): (best: Option<nat>)
    requires n <= |q.pending|
    ensures best.Some? ==> best.value < n && Eligible(q, now, best.value)
  {
    if n == 0 then None
    else
      var best := BestUpTo(q, now, answers, n - 1);
      if !Eligible(q, now, n - 1) then best
      else if best.None? || Fresher(Heard(answers, n - 1), Heard(answers, best.value)) then Some(n - 1)
      else best
  }

  /** What a pick is for: eligible, at least as fresh as every eligible message,
      and strictly fresher than every eligible message enqueued earlier. */
  predicate IsBest(q: Queue, now: Time, answers: seq<Option<Time>>, n: nat, i: nat)
    requires n <= |q.pending|
  {
    && i < n
    && Eligible(q, now, i)
    && (forall j :: 0 <= j < n && Eligible(q, now, j) ==>
          var a, b := Heard(answers, j), Heard(answers, i);
          && (a.Some? ==> b.Some? && a.value <= b.value)
          && (j < i ==> b.Some? && (a.None? || a.value < b.value)))
  }

  /** Who may be picked: in nobody's hands, its next attempt due, and, if it asked to wait,
      nothing enqueued earlier for its recipient. */
  lemma EligibleExactly(q: Queue, now: Time, i: nat)
    requires i < |q.pending|
    ensures var m := q.pending[i];
            Eligible(q, now, i) <==>
              && !(m.id in q.inFlight)
              && !(m.nextAttempt.Some? && now < m.nextAttempt.value)
              && !(m.afterEarlier && exists j :: 0 <= j < i && q.pending[j].recipient == m.recipient)
  {
  }

  lemma {:induction false} BestIsBest(q: Queue, now: Time, answers: seq<Option<Time>>, n: nat)
    requires n <= |q.pending|
    ensures var best := BestUpTo(q, now, answers, n);
            && (best.None? <==> forall j :: 0 <= j < n ==> !Eligible(q, now, j))
            && (forall i: nat :: best == Some(i) <==> IsBest(q, now, answers, n, i))
  {
    if n != 0 {
      BestIsBest(q, now, answers, n - 1);
      var prev := BestUpTo(q, now, answers, n - 1);
      var best := BestUpTo(q, now, answers, n);
      if best.Some? {
        if prev.Some? {
          assert IsBest(q, now, answers, n - 1, prev.value);
        }
        assert IsBest(q, now, answers, n, best.value);
      }
    }
  }

  /** `pickDue`: reap, choose, mark in flight. */
  function PickDue(q: Queue, now: Time, answers: seq<Option<Time>>): (r: (Queue, Option<nat>))
    ensures r.1.Some? ==> r.1.value < |r.0.pending|
  {
    var q1 := Reap(q, now);
    var best := BestUpTo(q1, now, answers, |q1.pending|);
    if best.None? then (q1, None)
    else (q1.(inFlight := q1.inFlight + {q1.pending[best.value].id}), best)
  }

  /** The reap removes exactly the messages queued for more than a day that no worker holds. */
  lemma ReapExactly(q: Queue, now: Time)
    requires UniqueIds(q.pending)
    ensures forall m :: m in Reap(q, now).pending <==>
              m in q.pending && (m.id in q.inFlight || m.enqueuedAt.None? || now <= m.enqueuedAt.value + 24 * HOUR)
  {
    var gone := ExpiredIds(q.pending, q.inFlight, now);
    var at := KeepEmbeds(q.pending, gone);
    var r := Keep(q.pending, gone);
    if gone == {} {
      forall m | m in q.pending
        ensures !Expired(m, q.inFlight, now)
      {
        assert Expired(m, q.inFlight, now) ==> m.id in gone;
      }
    } else {
      forall m | m in q.pending && !Expired(m, q.inFlight, now)
        ensures m in r
      {
        var i :| 0 <= i < |q.pending| && q.pending[i] == m;
        assert m.id !in gone;
        assert i in at;
        var k :| 0 <= k < |at| && at[k] == i;
        assert r[k] == m;
      }
    }
  }

  /** The queue never wedges: with nobody sending and every wait over, whatever
      survives the reap yields a message — the head has nothing ahead of it. */
  lemma NeverWedges(q: Queue, now: Time, answers: seq<Option<Time>>)
    requires q.inFlight == {}
    requires forall i :: 0 <= i < |q.pending| && q.pending[i].nextAttempt.Some? ==>
                           q.pending[i].nextAttempt.value <= now
    ensures Reap(q, now).pending != [] <==> PickDue(q, now, answers).1.Some?
  {
    var q1 := Reap(q, now);
    if q1.pending != [] {
      var at := KeepEmbeds(q.pending, ExpiredIds(q.pending, q.inFlight, now));
      assert q1.pending[0] in q.pending;
      assert Eligible(q1, now, 0);
      BestIsBest(q1, now, answers, |q1.pending|);
    }
  }

  // ---- Attempt -------------------------------------------------------------

  function Bump(q: Queue, id: string): Queue
    requires id in Ids(q.pending)
  {
    var i := IndexOf(q.pending, id);
    q.(pending := q.pending[i := q.pending[i].(attempts := q.pending[i].attempts + 1)])
  }

  function DirectBudget(p: Policy): (n: int)
    ensures n <= p.maxAttempts
    ensures p.maxAttempts >= 1 ==> n >= 1
  {
    if 0 < p.directAttempts < p.maxAttempts then p.directAttempts else p.maxAttempts
  }

  function Pow2(n: nat): (r: int)
    ensures r >= 1
  {
    if n == 0 then 1 else 2 * Pow2(n - 1)
  }

  /** `retryWait` doubled once per completed attempt, capped. */
  function BackoffWait(p: Policy, attempts: int): Time {
    Min(MAX_BACKOFF, p.retryWait * Pow2(if attempts <= 1 then 0 else attempts - 1))
  }

  lemma {:induction false} Pow2Grows(n: nat, m: nat)
    requires n <= m
    ensures Pow2(n) <= Pow2(m)
  {
    if n < m {
      Pow2Grows(n, m - 1);
    }
  }

  /** Waits never shrink from one attempt to the next and never exceed a minute; the first
      is the configured wait itself when that is shorter. */
  lemma BackoffGrows(p: Policy, a: int, b: int)
    requires p.Valid() && a <= b
    ensures 0 <= BackoffWait(p, a) <= BackoffWait(p, b) <= MAX_BACKOFF
    ensures a <= 1 ==> BackoffWait(p, a) == Min(MAX_BACKOFF, p.retryWait)
  {
    var n: nat := if a <= 1 then 0 else a - 1;
    var m: nat := if b <= 1 then 0 else b - 1;
    Pow2Grows(n, m);
    Scaled(p.retryWait, Pow2(n), Pow2(m));
    assert Pow2(0) == 1;
  }

  lemma Scaled(w: int, x: int, y: int)
    requires 0 <= w && 1 <= x <= y
    ensures 0 <= w * x <= w * y
  {
  }

  /** Each completed attempt doubles the wait, up to a minute. */
  lemma BackoffDoubles(p: Policy, a: int)
    requires p.Valid() && a >= 1
    ensures BackoffWait(p, a + 1) == Min(60 * SECOND, 2 * BackoffWait(p, a))
    ensures BackoffWait(p, 1) == Min(60 * SECOND, p.retryWait)
  {
    var x := Pow2(a - 1);
    assert Pow2(a) == 2 * x && Pow2(0) == 1;
    Doubled(p.retryWait, x);
  }

  lemma Doubled(w: int, x: int)
    ensures w * (2 * x) == 2 * (w * x)
  {
  }

  datatype Verdict =
    | Retry(m: Message)
    | Delivered
    | StampRefused
    | BudgetFailed

  /** The whole decision `attempt` takes once the send has returned; `attempts`
      is the count read when the send began. */
  function Judge(p: Policy, m: Message, attempts: int, o: Outcome, hasNode: bool, now: Time): Verdict {
    if o.Sent? then Delivered
    else if o.Deferral() then
      Retry(m.(attempts := m.attempts - 1, nextAttempt := Some(now + p.retryWait)))
    else if o.StampTooHigh? then StampRefused
    else if p.fallback && !m.propagated && attempts >= DirectBudget(p) && hasNode then
      Retry(m.(propagated := true, attempts := 0, nextAttempt := Some(now + p.retryWait)))
    else if attempts >= p.maxAttempts then BudgetFailed
    else if o.RecipientUnknown? && attempts > p.pathlessTries then
      Retry(m.(nextAttempt := Some(now + p.pathRequestWait)))
    else
      Retry(m.(nextAttempt := Some(now + BackoffWait(p, attempts))))
  }

  function Finish(p: Policy, q: Queue, id: string, attempts: int, o: Outcome, hasNode: bool, now: Time): Queue
    requires id in Ids(q.pending)
  {
    var i := IndexOf(q.pending, id);
    var v := Judge(p, q.pending[i], attempts, o, hasNode, now);
    var pending' := if v.Retry? then q.pending[i := v.m] else Keep(q.pending, {id});
    Persist(q.(pending := pending', inFlight := q.inFlight - {id}))
  }

  /** What a settled send leaves in the queue. */
  lemma FinishPending(p: Policy, q: Queue, id: string, attempts: int, o: Outcome, hasNode: bool, now: Time)
    requires id in Ids(q.pending)
    ensures var i := IndexOf(q.pending, id);
            var v := Judge(p, q.pending[i], attempts, o, hasNode, now);
            var s' := Finish(p, q, id, attempts, o, hasNode, now).pending;
            if v.Retry? then v.m.id == id && s' == q.pending[i := v.m] else s' == Keep(q.pending, {id})
  {
  }

  lemma FinishIds(p: Policy, q: Queue, id: string, attempts: int, o: Outcome, hasNode: bool, now: Time)
    requires id in Ids(q.pending)
    ensures var v := Judge(p, q.pending[IndexOf(q.pending, id)], attempts, o, hasNode, now);
            Ids(Finish(p, q, id, attempts, o, hasNode, now).pending) ==
            if v.Retry? then Ids(q.pending) else Ids(q.pending) - {id}
  {
    var i := IndexOf(q.pending, id);
    var v := Judge(p, q.pending[i], attempts, o, hasNode, now);
    if v.Retry? {
      UpdateKeepsIds(q.pending, i, v.m);
    } else {
      KeepIds(q.pending, {id});
    }
  }

  // ---- Disk ----------------------------------------------------------------

  /** What the JSON form keeps of a message. */
  function Erase(m: Message): Message { m.(fields := None, bubble := None) }

  function Snapshot(s: seq<Message>): seq<Message> { seq(|s|, i requires 0 <= i < |s| => Erase(s[i])) }

  /** A file entry for a queued message: all of it but the attachment and the bubble. */
  predicate SavedAs(file: seq<Message>, s: seq<Message>) {
    && |file| == |s|
    && (forall i :: 0 <= i < |s| ==>
          && file[i].id == s[i].id && file[i].recipient == s[i].recipient && file[i].body == s[i].body
          && file[i].attempts == s[i].attempts && file[i].nextAttempt == s[i].nextAttempt
          && file[i].enqueuedAt == s[i].enqueuedAt && file[i].propagated == s[i].propagated
          && file[i].afterEarlier == s[i].afterEarlier && file[i].fields.None? && file[i].bubble.None?)
  }

  lemma SnapshotSaves(s: seq<Message>)
    ensures SavedAs(Snapshot(s), s)
  {
  }

  predicate WellFormed(m: Message) { |m.recipient| == HASH_LEN }

  function Demote(p: Policy, m: Message): Message {
    if m.propagated && !p.PropagationOn() then m.(propagated := false) else m
  }

  /** `Load`: drop malformed entries, demote propagated ones when propagation is off. */
  function Load(p: Policy, file: seq<Message>): (r: seq<Message>)
    ensures |r| <= |file|
  {
    if |file| == 0 then []
    else
      var front := Load(p, file[..|file| - 1]);
      var m := file[|file| - 1];
      if WellFormed(m) then front + [Demote(p, m)] else front
  }
}
