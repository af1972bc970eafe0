/** `OutboundQueue` in the source's own form: lock-protected fields, scan loops and
    in-place updates. Every method is proved equal to its transition in `Outbound`. */
module OutboundQueue {
  import opened Prelude
  import opened Fields
  import O = Outbound

  class OutboundQueue {
    const policy: O.Policy
    var pending: seq<O.Message>
    var inFlight: set<string>
    var dirty: bool
    var kicked: bool
    var dropped: nat

    ghost predicate Valid()
      reads this
    {
      && policy.Valid()
      && O.UniqueIds(pending)
      && inFlight <= O.Ids(pending)
    }

    ghost function Model(): O.Queue
      reads this
    {
      O.Queue(pending, inFlight, dirty, kicked, dropped)
    }

    constructor (policy: O.Policy)
      requires policy.Valid()
      ensures Valid() && this.policy == policy
      ensures Model() == O.Queue([], {}, false, false, 0)
    {
      this.policy := policy;
      pending, inFlight, dirty, kicked, dropped := [], {}, false, false, 0;
    }

    /** Marks a state change for the flusher; kicks coalesce in a one-slot channel. */
    method PersistLocked()
      modifies this`dirty, this`kicked
      ensures Model() == O.Persist(old(Model()))
    {
      dirty := true;
      kicked := true;
    }

    method Enqueue(id: string, recipient: Bytes, body: Bytes, fields: Option<FieldMap>,
                   bubble: Option<nat>, afterEarlier: bool, now: Time) returns (accepted: bool)
      requires Valid() && id !in O.Ids(pending)
      modifies this
      ensures Valid()
      ensures accepted == !O.Full(old(Model()))
      ensures Model() ==
              O.Enqueue(old(Model()), O.NewMessage(policy, id, recipient, body, fields, bubble, afterEarlier, now))
      ensures accepted ==>
                && |pending| == |old(pending)| + 1 && pending[..|old(pending)|] == old(pending) && dirty && kicked
                && var m := pending[|old(pending)|];
                && m.id == id && m.recipient == recipient && m.body == body && m.fields == fields
                && m.bubble == bubble && m.afterEarlier == afterEarlier && m.propagated == policy.always
                && m.attempts == 0 && m.nextAttempt.None? && m.enqueuedAt == Some(now)
      ensures !accepted ==> pending == old(pending) && dropped == old(dropped) + 1
    {
      var msg := O.Message(id, recipient, body, fields, bubble, 0, None, Some(now), false, afterEarlier);
      if |pending| >= O.MAX_PENDING {
        dropped := dropped + 1;
        return false;
      }
      msg := msg.(propagated := policy.always);
      assert forall i :: 0 <= i < |pending| ==> pending[i].id in O.Ids(pending);
      assert forall x :: x in O.Ids(pending) ==> x in O.Ids(pending + [msg]) by {
        assert forall i :: 0 <= i < |pending| ==> (pending + [msg])[i] == pending[i];
      }
      pending := pending + [msg];
      PersistLocked();
      accepted := true;
    }

    /** Slices the message with this id out of the queue. */
    method RemoveLocked(id: string)
      requires O.UniqueIds(pending)
      modifies this`pending
      ensures pending == O.Keep(old(pending), {id})
    {
      for i := 0 to |pending|
        invariant pending == old(pending)
        invariant pending[..i] == O.Keep(pending[..i], {id})
        invariant forall j :: 0 <= j < i ==> pending[j].id != id
      {
        if pending[i].id == id {
          KeepTail(pending, i, |pending|);
          assert pending[..|pending|] == pending;
          pending := pending[..i] + pending[i + 1..];
          return;
        }
        assert pending[..i + 1][..i] == pending[..i];
      }
      assert pending[..|pending|] == pending;
    }

    /** Past the one removed index, `Keep` copies. */
    static lemma {:induction false} KeepTail(s: seq<O.Message>, i: nat, n: nat)
      requires O.UniqueIds(s)
      requires i < n <= |s|
      requires O.Keep(s[..i], {s[i].id}) == s[..i]
      ensures O.Keep(s[..n], {s[i].id}) == s[..i] + s[i + 1..n]
    {
      assert s[..n][..n - 1] == s[..n - 1];
      if n == i + 1 {
        assert s[..n][n - 1] == s[i];
      } else {
        KeepTail(s, i, n - 1);
      }
    }

    /** First loop of `pickDue`: which messages are overdue and held by no worker. */
    method CollectExpired(now: Time) returns (expired: seq<string>)
      ensures forall x :: x in expired <==> x in O.ExpiredIds(pending, inFlight, now)
    {
      expired := [];
      for i := 0 to |pending|
        invariant forall x :: x in expired <==>
          exists j :: 0 <= j < i && O.Expired(pending[j], inFlight, now) && pending[j].id == x
      {
        var m := pending[i];
        if m.id in inFlight {
          continue;
        }
        if m.enqueuedAt.Some? && now - m.enqueuedAt.value > O.MAX_QUEUE_AGE {
          expired := expired + [m.id];
        }
      }
    }

    /** Second loop of `pickDue`: one removal per overdue message. */
    method RemoveAll(gone: seq<string>)
      requires O.UniqueIds(pending)
      modifies this`pending
      ensures pending == O.Keep(old(pending), SetOf(gone))
    {
      O.KeepAll(pending);
      assert SetOf(gone[..0]) == {};
      for k := 0 to |gone|
        invariant pending == O.Keep(old(pending), SetOf(gone[..k]))
      {
        O.KeepUnique(old(pending), SetOf(gone[..k]));
        O.KeepTwice(old(pending), SetOf(gone[..k]), {gone[k]});
        assert SetOf(gone[..k + 1]) == SetOf(gone[..k]) + {gone[k]};
        RemoveLocked(gone[k]);
      }
      assert gone[..|gone|] == gone;
    }

    static ghost function SetOf(xs: seq<string>): set<string> { set x | x in xs }

    /** Drops every overdue message no worker holds. */
    method ReapExpired(now: Time)
      requires Valid()
      modifies this
      ensures Valid()
      ensures Model() == O.Reap(old(Model()), now)
    {
      var expired := CollectExpired(now);
      ghost var gone := O.ExpiredIds(pending, inFlight, now);
      assert gone == SetOf(expired);
      O.KeepAll(pending);
      O.KeepUnique(pending, gone);
      O.KeepIds(pending, gone);
      O.NobodyHoldsExpired(pending, inFlight, now);
      RemoveAll(expired);
      if |expired| > 0 {
        assert expired[0] in gone;
        PersistLocked();
      }
    }

    static method HasEarlierFor(ahead: seq<O.Message>, recipient: Bytes) returns (found: bool)
      ensures found == O.HasEarlierFor(ahead, |ahead|, recipient)
    {
      for j := 0 to |ahead|
        invariant !O.HasEarlierFor(ahead, j, recipient)
      {
        if ahead[j].recipient == recipient {
          return true;
        }
      }
      return false;
    }

    /** Reap, scan for the best due message, mark it in flight. `answers[i]` is
        what the transport said about index `i` when the scan asked. */
    method PickDue(now: Time, answers: seq<Option<Time>>) returns (picked: Option<O.Message>)
      requires Valid()
      modifies this
      ensures Valid()
      ensures var spec := O.PickDue(old(Model()), now, answers);
              && Model() == spec.0
              && picked == (if spec.1.None? then None else Some(spec.0.pending[spec.1.value]))
    {
      ReapExpired(now);
      ghost var q1 := Model();
      var best: Option<nat> := None;
      var bestHeard: Option<Time> := None;
      for i := 0 to |pending|
        invariant Model() == q1 && Valid()
        invariant best == O.BestUpTo(q1, now, answers, i)
        invariant best.Some? ==> bestHeard == O.Heard(answers, best.value)
      {
        var m := pending[i];
        if m.id in inFlight {
          continue;
        }
        if m.nextAttempt.Some? && m.nextAttempt.value > now {
          continue;
        }
        if m.afterEarlier {
          var held := HasEarlierFor(pending[..i], m.recipient);
          assert held == O.HasEarlierFor(pending, i, m.recipient) by {
            assert forall j :: 0 <= j < i ==> pending[..i][j] == pending[j];
          }
          if held {
            continue;
          }
        }
        var heard := if i < |answers| then answers[i] else None;
        if best.None? {
          best, bestHeard := Some(i), heard;
        } else if heard.Some? && bestHeard.None? {
          best, bestHeard := Some(i), heard;
        } else if heard.Some? && bestHeard.Some? && heard.value > bestHeard.value {
          best, bestHeard := Some(i), heard;
        }
      }
      if best.None? {
        return None;
      }
      inFlight := inFlight + {pending[best.value].id};
      picked := Some(pending[best.value]);
    }

    /** First critical section of `attempt`: count the attempt, remember the route. */
    method BeginAttempt(id: string) returns (attempts: int, propagated: bool)
      requires Valid() && id in O.Ids(pending)
      modifies this`pending
      ensures Valid()
      ensures Model() == O.Bump(old(Model()), id)
      ensures var m := O.Bump(old(Model()), id).pending[O.IndexOf(old(pending), id)];
              attempts == m.attempts && propagated == m.propagated
    {
      var i := O.IndexOf(pending, id);
      ghost var ids := O.Ids(pending);
      pending := pending[i := pending[i].(attempts := pending[i].attempts + 1)];
      O.UpdateKeepsIds(old(pending), i, pending[i]);
      attempts, propagated := pending[i].attempts, pending[i].propagated;
    }

    /** The doubling loop. */
    method BackoffWait(attempts: int) returns (wait: Time)
      requires policy.Valid()
      ensures wait == O.BackoffWait(policy, attempts)
    {
      wait := policy.retryWait;
      var i := 1;
      while i < attempts && wait < O.MAX_BACKOFF
        invariant 1 <= i && (i <= attempts || i == 1)
        invariant wait == policy.retryWait * O.Pow2(i - 1)
        decreases attempts - i
      {
        DoubleStep(policy.retryWait, i);
        wait := wait * 2;
        i := i + 1;
      }
      if attempts > 1 {
        ScaledPow2Grows(policy.retryWait, i - 1, attempts - 1);
      }
      if wait > O.MAX_BACKOFF {
        wait := O.MAX_BACKOFF;
      }
    }

    static lemma DoubleStep(a: Time, i: int)
      requires 1 <= i
      ensures a * O.Pow2(i) == a * O.Pow2(i - 1) * 2
    {
    }

    static lemma {:induction false} ScaledPow2Grows(a: Time, i: nat, j: nat)
      requires 0 <= a && i <= j
      ensures a * O.Pow2(i) <= a * O.Pow2(j)
      decreases j - i
    {
      if i < j {
        ScaledPow2Grows(a, i, j - 1);
        DoubleStep(a, j);
        assert 0 <= a * O.Pow2(j - 1);
      }
    }

    /** The branch ladder of `attempt`: the message to keep, or `None` when it leaves. */
    method Decide(m: O.Message, attempts: int, o: O.Outcome, hasNode: bool, now: Time)
      returns (retry: Option<O.Message>)
      requires policy.Valid()
      ensures var v := O.Judge(policy, m, attempts, o, hasNode, now);
              retry == if v.Retry? then Some(v.m) else None
    {
      if o.Sent? {
        return None;
      }
      if o.NoNode? || o.StampBusy? {
        return Some(m.(attempts := m.attempts - 1, nextAttempt := Some(now + policy.retryWait)));
      }
      if o.StampTooHigh? {
        return None;
      }
      if policy.fallback && !m.propagated && attempts >= O.DirectBudget(policy) && hasNode {
        return Some(m.(propagated := true, attempts := 0, nextAttempt := Some(now + policy.retryWait)));
      }
      if attempts >= policy.maxAttempts {
        return None;
      }
      if o.RecipientUnknown? && attempts > policy.pathlessTries {
        return Some(m.(nextAttempt := Some(now + policy.pathRequestWait)));
      }
      var wait := BackoffWait(attempts);
      return Some(m.(nextAttempt := Some(now + wait)));
    }

    /** Second critical section of `attempt`: settle the message by the outcome. */
    method FinishAttempt(id: string, attempts: int, o: O.Outcome, hasNode: bool, now: Time)
      requires Valid() && id in O.Ids(pending)
      modifies this
      ensures Valid()
      ensures Model() == O.Finish(policy, old(Model()), id, attempts, o, hasNode, now)
    {
      var i := O.IndexOf(pending, id);
      var retry := Decide(pending[i], attempts, o, hasNode, now);
      if retry.Some? {
        O.UpdateKeepsIds(pending, i, retry.value);
        pending := pending[i := retry.value];
      } else {
        O.KeepIds(pending, {id});
        O.KeepUnique(pending, {id});
        RemoveLocked(id);
      }
      PersistLocked();
      inFlight := inFlight - {id};
    }

    /** The snapshot half of `Flush`: nothing to do when clean. */
    method TakeSnapshot() returns (snap: Option<seq<O.Message>>)
      modifies this`dirty
      ensures snap == if old(dirty) then Some(O.Snapshot(pending)) else None
      ensures snap.Some? ==> O.SavedAs(snap.value, pending)
      ensures Model() == old(Model()).(dirty := false)
    {
      O.SnapshotSaves(pending);
      if !dirty {
        return None;
      }
      dirty := false;
      var copy: seq<O.Message> := [];
      for i := 0 to |pending|
        invariant copy == O.Snapshot(pending[..i])
      {
        copy := copy + [O.Erase(pending[i])];
      }
      assert pending[..|pending|] == pending;
      snap := Some(copy);
    }

    /** In-place compaction of the file's entries into the queue. */
    method LoadFile(file: seq<O.Message>)
      modifies this`pending
      ensures pending == O.Load(policy, file)
    {
      var kept: seq<O.Message> := [];
      for i := 0 to |file|
        invariant kept == O.Load(policy, file[..i])
      {
        assert file[..i + 1][..i] == file[..i];
        var m := file[i];
        if |m.recipient| != O.HASH_LEN {
          continue;
        }
        if m.propagated && !(policy.fallback || policy.always) {
          m := m.(propagated := false);
        }
        kept := kept + [m];
      }
      assert file[..|file|] == file;
      pending := kept;
    }
  }
}
