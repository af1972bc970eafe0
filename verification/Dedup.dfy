/** Duplicate suppression (internal/service/dedup.go) against an unbounded history. */
module Dedup {
  import opened Prelude

  type Table = map<Bytes, Time>

  function Live(t: Table, ttl: Time, now: Time): Table { map k | k in t && now - t[k] < ttl :: t[k] }

  /** Is this key answered "seen"? */
  predicate Seen(t: Table, ttl: Time, id: Bytes, now: Time) { ttl > 0 && id in t && now - t[id] < ttl }

  /** Does recording this key overflow the table even after the sweep? */
  predicate Overflows(t: Table, ttl: Time, max: nat, id: Bytes, now: Time) {
    && ttl > 0 && !Seen(t, ttl, id, now)
    && |t[id := now]| > max && |Live(t[id := now], ttl, now)| > max
  }

  function Next(t: Table, ttl: Time, max: nat, id: Bytes, now: Time): Table {
    if ttl <= 0 || Seen(t, ttl, id, now) then t
    else if |t[id := now]| <= max then t[id := now]
    else if Overflows(t, ttl, max, id, now) then map[]
    else Live(t[id := now], ttl, now)
  }

  class DedupCache {
    const ttl: Time
    const max: nat
    var seen: Table

    constructor (ttl: Time, max: nat)
      ensures this.ttl == ttl && this.max == max && seen == map[]
    {
      this.ttl, this.max := ttl, max;
      seen := map[];
    }

    method SeenBefore(id: Bytes, now: Time) returns (dup: bool)
      modifies this
      ensures dup == Seen(old(seen), ttl, id, now)
      ensures seen == Next(old(seen), ttl, max, id, now)
    {
      if ttl <= 0 {
        return false;
      }
      if id in seen && now - seen[id] < ttl {
        return true;
      }
      seen := seen[id := now];
      if |seen| > max {
        Evict(now);
      }
      return false;
    }

    method Evict(now: Time)
      modifies this
      ensures seen == if |Live(old(seen), ttl, now)| > max then map[] else Live(old(seen), ttl, now)
    {
      ghost var before := seen;
      var rest := seen.Keys;
      while rest != {}
        invariant rest <= before.Keys
        invariant seen == map k | k in before && (k in rest || now - before[k] < ttl) :: before[k]
      {
        var k :| k in rest;
        if now - seen[k] >= ttl {
          seen := seen - {k};
        }
        rest := rest - {k};
      }
      assert seen == Live(before, ttl, now);
      if |seen| > max {
        seen := map[];
      }
    }
  }

  /** The sweep never changes an answer, now or later. */
  lemma SweepIsInvisible(t: Table, ttl: Time, now: Time, id: Bytes, later: Time)
    requires now <= later
    ensures Seen(Live(t, ttl, now), ttl, id, later) == Seen(t, ttl, id, later)
  {
  }

  /** A sequence of calls under a clock that does not run backwards. */
  datatype Call = Call(id: Bytes, at: Time)

  predicate Run(ts: seq<Table>, cs: seq<Call>, ttl: Time, max: nat) {
    && ttl > 0
    && |ts| == |cs| + 1
    && ts[0] == map[]
    && (forall i {:trigger cs[i]} :: 0 <= i < |cs| ==> ts[i + 1] == Next(ts[i], ttl, max, cs[i].id, cs[i].at))
    && (forall i, j :: 0 <= i < j < |cs| ==> cs[i].at <= cs[j].at)
  }

  predicate Accepted(ts: seq<Table>, cs: seq<Call>, ttl: Time, j: nat)
    requires j < |cs| < |ts|
  {
    !Seen(ts[j], ttl, cs[j].id, cs[j].at)
  }

  predicate WipedAt(ts: seq<Table>, cs: seq<Call>, ttl: Time, max: nat, j: nat)
    requires j < |cs| < |ts|
  {
    Overflows(ts[j], ttl, max, cs[j].id, cs[j].at)
  }

  /** Call `j` was accepted, and no over-cap clear has happened since. */
  predicate Remembered(ts: seq<Table>, cs: seq<Call>, ttl: Time, max: nat, j: nat, n: nat)
    requires j < n <= |cs| < |ts|
  {
    Accepted(ts, cs, ttl, j) && forall c :: j <= c < n ==> !WipedAt(ts, cs, ttl, max, c)
  }

  /** The table before call `n` holds only remembered calls, and misses one only when
      it has expired. */
  predicate Agrees(ts: seq<Table>, cs: seq<Call>, ttl: Time, max: nat, n: nat)
    requires n <= |cs| < |ts|
  {
    && (forall id :: id in ts[n] ==>
          exists j :: 0 <= j < n && Remembered(ts, cs, ttl, max, j, n) && cs[j] == Call(id, ts[n][id]))
    && (forall j :: 0 <= j < n && Remembered(ts, cs, ttl, max, j, n) ==>
          || (cs[j].id in ts[n] && cs[j].at <= ts[n][cs[j].id])
          || cs[n - 1].at - cs[j].at >= ttl)
  }

  lemma RememberedOn(ts: seq<Table>, cs: seq<Call>, ttl: Time, max: nat, j: nat, n: nat)
    requires Run(ts, cs, ttl, max) && j < n < |cs|
    ensures Remembered(ts, cs, ttl, max, j, n + 1) <==>
            Remembered(ts, cs, ttl, max, j, n) && !WipedAt(ts, cs, ttl, max, n)
  {
  }

  /** One call, entry by entry. */
  lemma NextEntry(t: Table, ttl: Time, max: nat, c: Call, id: Bytes)
    requires ttl > 0
    ensures var t' := Next(t, ttl, max, c.id, c.at);
            && (id in t' ==> !Overflows(t, ttl, max, c.id, c.at))
            && (id in t' ==> (id in t && t'[id] == t[id]) || (Call(id, t'[id]) == c && !Seen(t, ttl, c.id, c.at)))
            && (!Overflows(t, ttl, max, c.id, c.at) && id in t && t[id] <= c.at ==>
                  (id in t' && t[id] <= t'[id]) || c.at - t[id] >= ttl)
            && (!Overflows(t, ttl, max, c.id, c.at) && !Seen(t, ttl, c.id, c.at) ==> c.id in t' && t'[c.id] == c.at)
  {
  }

  lemma HeldStep(ts: seq<Table>, cs: seq<Call>, ttl: Time, max: nat, n: nat, id: Bytes)
    requires Run(ts, cs, ttl, max) && n < |cs| && Agrees(ts, cs, ttl, max, n) && id in ts[n + 1]
    ensures exists j :: 0 <= j < n + 1 && Remembered(ts, cs, ttl, max, j, n + 1) && cs[j] == Call(id, ts[n + 1][id])
  {
    assert ts[n + 1] == Next(ts[n], ttl, max, cs[n].id, cs[n].at);
    NextEntry(ts[n], ttl, max, cs[n], id);
    if id in ts[n] && ts[n + 1][id] == ts[n][id] {
      var j :| 0 <= j < n && Remembered(ts, cs, ttl, max, j, n) && cs[j] == Call(id, ts[n][id]);
      RememberedOn(ts, cs, ttl, max, j, n);
    } else {
      assert Remembered(ts, cs, ttl, max, n, n + 1);
    }
  }

  lemma KeptStep(ts: seq<Table>, cs: seq<Call>, ttl: Time, max: nat, n: nat, j: nat)
    requires Run(ts, cs, ttl, max) && j <= n < |cs| && Agrees(ts, cs, ttl, max, n)
    requires Remembered(ts, cs, ttl, max, j, n + 1)
    ensures (cs[j].id in ts[n + 1] && cs[j].at <= ts[n + 1][cs[j].id]) || cs[n].at - cs[j].at >= ttl
  {
    assert ts[n + 1] == Next(ts[n], ttl, max, cs[n].id, cs[n].at);
    assert !WipedAt(ts, cs, ttl, max, n);
    NextEntry(ts[n], ttl, max, cs[n], cs[j].id);
    if j < n {
      RememberedOn(ts, cs, ttl, max, j, n);
      assert cs[n - 1].at <= cs[n].at;
      if cs[j].id in ts[n] {
        var i :| 0 <= i < n && cs[i] == Call(cs[j].id, ts[n][cs[j].id]);
        assert cs[i].at <= cs[n].at;
      }
    }
  }

  lemma AgreesStep(ts: seq<Table>, cs: seq<Call>, ttl: Time, max: nat, n: nat)
    requires Run(ts, cs, ttl, max) && n < |cs| && Agrees(ts, cs, ttl, max, n)
    ensures Agrees(ts, cs, ttl, max, n + 1)
  {
    var t := ts[n + 1];
    forall id | id in t
      ensures exists j :: 0 <= j < n + 1 && Remembered(ts, cs, ttl, max, j, n + 1) && cs[j] == Call(id, t[id])
    {
      HeldStep(ts, cs, ttl, max, n, id);
    }
    forall j | 0 <= j < n + 1 && Remembered(ts, cs, ttl, max, j, n + 1)
      ensures (cs[j].id in ts[n + 1] && cs[j].at <= ts[n + 1][cs[j].id]) || cs[n].at - cs[j].at >= ttl
    {
      KeptStep(ts, cs, ttl, max, n, j);
    }
  }

  lemma {:induction false} AlwaysAgrees(ts: seq<Table>, cs: seq<Call>, ttl: Time, max: nat, n: nat)
    requires Run(ts, cs, ttl, max) && n <= |cs|
    ensures Agrees(ts, cs, ttl, max, n)
  {
    if n > 0 {
      AlwaysAgrees(ts, cs, ttl, max, n - 1);
      AgreesStep(ts, cs, ttl, max, n - 1);
    }
  }

  /** The bounded table answers exactly as an unbounded history would: "seen" means the
      key was accepted less than a ttl ago, with no over-cap clear since. */
  lemma SeenExactly(ts: seq<Table>, cs: seq<Call>, ttl: Time, max: nat, n: nat)
    requires Run(ts, cs, ttl, max) && n < |cs|
    ensures Seen(ts[n], ttl, cs[n].id, cs[n].at) <==>
            exists j :: 0 <= j < n && Remembered(ts, cs, ttl, max, j, n) && cs[j].id == cs[n].id
              && cs[n].at - cs[j].at < ttl
  {
    AlwaysAgrees(ts, cs, ttl, max, n);
  }

  /** Two acceptances of one key are at least a ttl apart unless a clear came between. */
  lemma AcceptancesApart(ts: seq<Table>, cs: seq<Call>, ttl: Time, max: nat, i: nat, j: nat)
    requires Run(ts, cs, ttl, max) && i < j < |cs| && cs[i].id == cs[j].id
    requires Accepted(ts, cs, ttl, i) && Accepted(ts, cs, ttl, j)
    ensures cs[j].at - cs[i].at >= ttl || exists c :: i <= c < j && WipedAt(ts, cs, ttl, max, c)
  {
    if forall c :: i <= c < j ==> !WipedAt(ts, cs, ttl, max, c) {
      assert Remembered(ts, cs, ttl, max, i, j);
      SeenExactly(ts, cs, ttl, max, j);
    }
  }

  lemma {:induction false} SizeBounded(ts: seq<Table>, cs: seq<Call>, ttl: Time, max: nat, n: nat)
    requires Run(ts, cs, ttl, max) && n < |ts|
    ensures |ts[n]| <= max
  {
    if n > 0 {
      SizeBounded(ts, cs, ttl, max, n - 1);
      assert ts[n] == Next(ts[n - 1], ttl, max, cs[n - 1].id, cs[n - 1].at);
    }
  }

  /** The distinct keys accepted within the last ttl and remembered, the one of call `n`
      included. */
  ghost function Crowd(ts: seq<Table>, cs: seq<Call>, ttl: Time, max: nat, n: nat): set<Bytes>
    requires n < |cs| < |ts|
  {
    (set j | 0 <= j < n && Remembered(ts, cs, ttl, max, j, n) && cs[n].at - cs[j].at < ttl :: cs[j].id) + {cs[n].id}
  }

  lemma LiveIsCrowd(ts: seq<Table>, cs: seq<Call>, ttl: Time, max: nat, n: nat, id: Bytes)
    requires Run(ts, cs, ttl, max) && n < |cs| && Agrees(ts, cs, ttl, max, n)
    requires id in Live(ts[n][cs[n].id := cs[n].at], ttl, cs[n].at)
    ensures id in Crowd(ts, cs, ttl, max, n)
  {
    if id != cs[n].id {
      var j :| 0 <= j < n && Remembered(ts, cs, ttl, max, j, n) && cs[j] == Call(id, ts[n][id]);
    }
  }

  lemma CrowdIsLive(ts: seq<Table>, cs: seq<Call>, ttl: Time, max: nat, n: nat, id: Bytes)
    requires |ts| == |cs| + 1 && Run(ts, cs, ttl, max) && n < |cs| && Agrees(ts, cs, ttl, max, n)
    requires id in Crowd(ts, cs, ttl, max, n)
    ensures id in Live(ts[n][cs[n].id := cs[n].at], ttl, cs[n].at)
  {
    hide Remembered, Agrees, Run;
    if id != cs[n].id {
      var j :| 0 <= j < n && Remembered(ts, cs, ttl, max, j, n) && cs[n].at - cs[j].at < ttl && cs[j].id == id;
      StillHeld(ts, cs, ttl, max, j, n);
    } else {
      RunTtl(ts, cs, ttl, max);
    }
  }

  lemma RunTtl(ts: seq<Table>, cs: seq<Call>, ttl: Time, max: nat)
    requires Run(ts, cs, ttl, max)
    ensures ttl > 0
  {
  }

  lemma StillHeld(ts: seq<Table>, cs: seq<Call>, ttl: Time, max: nat, j: nat, n: nat)
    requires Run(ts, cs, ttl, max) && j < n < |cs| && Agrees(ts, cs, ttl, max, n)
    requires Remembered(ts, cs, ttl, max, j, n) && cs[n].at - cs[j].at < ttl
    ensures cs[j].id in ts[n] && cs[n].at - ts[n][cs[j].id] < ttl
  {
    hide Remembered, Next;
    assert cs[n - 1].at <= cs[n].at;
  }

  lemma CrowdIsTable(ts: seq<Table>, cs: seq<Call>, ttl: Time, max: nat, n: nat)
    requires Run(ts, cs, ttl, max) && n < |cs|
    ensures Live(ts[n][cs[n].id := cs[n].at], ttl, cs[n].at).Keys == Crowd(ts, cs, ttl, max, n)
  {
    hide Live, Crowd, Agrees;
    AlwaysAgrees(ts, cs, ttl, max, n);
    var live := Live(ts[n][cs[n].id := cs[n].at], ttl, cs[n].at).Keys;
    var crowd := Crowd(ts, cs, ttl, max, n);
    forall id | id in live
      ensures id in crowd
    {
      LiveIsCrowd(ts, cs, ttl, max, n, id);
    }
    forall id | id in crowd
      ensures id in live
    {
      CrowdIsLive(ts, cs, ttl, max, n, id);
    }
  }

  /** The table is cleared wholesale exactly when more distinct keys than it may hold were
      accepted within the last ttl: no call clears it for less. */
  lemma WipedExactly(ts: seq<Table>, cs: seq<Call>, ttl: Time, max: nat, n: nat)
    requires Run(ts, cs, ttl, max) && n < |cs|
    ensures WipedAt(ts, cs, ttl, max, n) <==> Accepted(ts, cs, ttl, n) && |Crowd(ts, cs, ttl, max, n)| > max
  {
    if Accepted(ts, cs, ttl, n) {
      CrowdIsTable(ts, cs, ttl, max, n);
      var t := ts[n][cs[n].id := cs[n].at];
      SubsetSize(Live(t, ttl, cs[n].at).Keys, t.Keys);
    }
  }
}
