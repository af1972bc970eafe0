/** Discovery of propagation nodes (internal/service/propagation.go). */
module Propagation {
  import opened Prelude

  const MAX_NODES: nat := 256
  const STALE_AFTER: Time := 30 * MINUTE
  const MIN_TRANSFER_KB: int := 16

  /** What a node's announce says, after parsing. */
  datatype Info = Info(enabled: bool, stampCost: int, transferKB: int)

  datatype Node = Node(firstHeard: Time, lastHeard: Time, info: Info, usable: bool)

  type Nodes = map<Bytes, Node>

  /** `acceptableNode`; the stamp limit is the library's. */
  predicate Acceptable(i: Info, maxStamp: int) {
    i.enabled && i.stampCost <= maxStamp && (i.transferKB <= 0 || i.transferKB >= MIN_TRANSFER_KB)
  }

  /** Refused are nodes that do not accept mail, nodes that ask for a dearer stamp than we pay,
      and nodes that offer a transfer of 1 to 15 KB; nobody else. */
  lemma RefusedExactly(i: Info, maxStamp: int)
    ensures !Acceptable(i, maxStamp) <==> !i.enabled || i.stampCost > maxStamp || 0 < i.transferKB < 16
  {
  }

  predicate Stale(n: Node, now: Time) { now - n.lastHeard > STALE_AFTER }

  /** Some of the nodes are gone, the rest are as they were. */
  predicate Sub(a: Nodes, b: Nodes) { forall k :: k in a ==> k in b && a[k] == b[k] }

  /** Why a node was dropped to make room: stale, or no later heard than any survivor
      of a full table. */
  predicate Justified(before: Nodes, after: Nodes, now: Time) {
    forall k :: k in before && k !in after ==>
      || Stale(before[k], now)
      || (|after| == MAX_NODES - 1 && forall j :: j in after ==> before[k].lastHeard <= after[j].lastHeard)
  }

  /** `evictStaleLocked`: which of several equally old nodes goes is up to the map's
      iteration order, so the outcome is a relation. */
  predicate MadeRoom(before: Nodes, after: Nodes, now: Time) {
    && Sub(after, before)
    && |after| < MAX_NODES
    && (forall k :: k in after ==> !Stale(after[k], now))
    && Justified(before, after, now)
  }

  /** One parsed announce. */
  predicate Announced(before: Nodes, after: Nodes, key: Bytes, info: Info, usable: bool, now: Time) {
    if key in before then after == before[key := Node(before[key].firstHeard, now, info, usable)]
    else key in after && after[key] == Node(now, now, info, usable) && MadeRoom(before, after - {key}, now)
  }

  /** Usable and heard within the freshness window. */
  predicate Candidate(n: Node, now: Time) { n.usable && !Stale(n, now) }

  /** Usable, and heard within the last half hour. */
  lemma CandidateExactly(n: Node, now: Time)
    ensures Candidate(n, now) <==> n.usable && now <= n.lastHeard + 30 * MINUTE
  {
  }

  class Tracker {
    const maxStamp: int
    const pinned: Bytes
    var nodes: Nodes

    constructor (maxStamp: int, pinned: Bytes)
      ensures this.maxStamp == maxStamp && this.pinned == pinned && nodes == map[]
    {
      this.maxStamp, this.pinned := maxStamp, pinned;
      nodes := map[];
    }

    method OnAnnounce(key: Bytes, info: Info, now: Time)
      requires |nodes| <= MAX_NODES
      modifies this
      ensures Announced(old(nodes), nodes, key, info, Acceptable(info, maxStamp), now)
      ensures |nodes| <= MAX_NODES
    {
      var usable := Acceptable(info, maxStamp);
      var firstHeard := now;
      if key in nodes {
        firstHeard := nodes[key].firstHeard;
        assert nodes.Keys == nodes.Keys + {key};
      } else {
        MakeRoom(now);
      }
      ghost var kept := nodes;
      nodes := nodes[key := Node(firstHeard, now, info, usable)];
      assert key !in old(nodes) ==> nodes - {key} == kept;
      assert nodes.Keys == kept.Keys + {key};
    }

    method MakeRoom(now: Time)
      requires |nodes| <= MAX_NODES
      modifies this
      ensures MadeRoom(old(nodes), nodes, now)
    {
      DropStale(now);
      ghost var swept := nodes;
      while |nodes| >= MAX_NODES
        invariant |nodes| <= MAX_NODES && Sub(nodes, swept)
        invariant nodes == swept || MadeRoom(swept, nodes, now)
        decreases |nodes|
      {
        var oldest := Oldest();
        ghost var all := nodes;
        nodes := nodes - {oldest};
        assert all.Keys == nodes.Keys + {oldest};
      }
    }

    method DropStale(now: Time)
      modifies this
      ensures nodes == map k | k in old(nodes) && !Stale(old(nodes)[k], now) :: old(nodes)[k]
      ensures |nodes| <= |old(nodes)|
    {
      ghost var before := nodes;
      var rest := nodes.Keys;
      while rest != {}
        invariant rest <= before.Keys && |nodes| <= |before|
        invariant nodes == map k | k in before && (k in rest || !Stale(before[k], now)) :: before[k]
      {
        var k :| k in rest;
        if Stale(nodes[k], now) {
          ghost var all := nodes;
          nodes := nodes - {k};
          assert all.Keys == nodes.Keys + {k};
        }
        rest := rest - {k};
      }
    }

    /** The least recently heard node; ties go to whichever the scan meets first. */
    method Oldest() returns (key: Bytes)
      requires nodes != map[]
      ensures key in nodes && forall k :: k in nodes ==> nodes[key].lastHeard <= nodes[k].lastHeard
    {
      var rest := nodes.Keys;
      var best: Option<Bytes> := None;
      while rest != {}
        invariant rest <= nodes.Keys
        invariant best.None? ==> rest == nodes.Keys
        invariant best.Some? ==> best.value in nodes
                                 && forall k :: k in nodes && k !in rest ==>
                                   nodes[best.value].lastHeard <= nodes[k].lastHeard
      {
        var k :| k in rest;
        if best.None? || nodes[k].lastHeard < nodes[best.value].lastHeard {
          best := Some(k);
        }
        rest := rest - {k};
      }
      key := best.value;
    }

    /** The pin always wins; otherwise a usable, fresh node that nothing usable and fresh
        was first heard before, and nothing only when there is no such node. */
    method Current(now: Time) returns (choice: Option<Bytes>)
      ensures pinned != [] ==> choice == Some(pinned)
      ensures pinned == [] ==> (choice.None? <==> forall k :: k in nodes ==> !Candidate(nodes[k], now))
      ensures pinned == [] && choice.Some? ==>
                && choice.value in nodes && Candidate(nodes[choice.value], now)
                && forall k :: k in nodes && Candidate(nodes[k], now) ==>
                  nodes[choice.value].firstHeard <= nodes[k].firstHeard
    {
      if |pinned| > 0 {
        return Some(pinned);
      }
      choice := None;
      var rest := nodes.Keys;
      while rest != {}
        invariant rest <= nodes.Keys
        invariant choice.None? ==> forall k :: k in nodes && k !in rest ==> !Candidate(nodes[k], now)
        invariant choice.Some? ==>
                    && choice.value in nodes && Candidate(nodes[choice.value], now)
                    && forall k :: k in nodes && k !in rest && Candidate(nodes[k], now) ==>
                         nodes[choice.value].firstHeard <= nodes[k].firstHeard
      {
        var k :| k in rest;
        if Candidate(nodes[k], now) && (choice.None? || nodes[k].firstHeard < nodes[choice.value].firstHeard) {
          choice := Some(k);
        }
        rest := rest - {k};
      }
    }
  }

  // ---- Runs ----------------------------------------------------------------

  datatype Heard = Heard(key: Bytes, info: Info, usable: bool, at: Time)

  predicate Run(ns: seq<Nodes>, hs: seq<Heard>) {
    && |ns| == |hs| + 1
    && ns[0] == map[]
    && (forall i {:trigger hs[i]} :: 0 <= i < |hs| ==>
      Announced(ns[i], ns[i + 1], hs[i].key, hs[i].info, hs[i].usable, hs[i].at))
    && Monotone(hs)
  }

  lemma Step(ns: seq<Nodes>, hs: seq<Heard>, i: nat)
    requires Run(ns, hs) && i < |hs|
    ensures Announced(ns[i], ns[i + 1], hs[i].key, hs[i].info, hs[i].usable, hs[i].at)
  {
  }

  predicate Monotone(hs: seq<Heard>) { forall i, j :: 0 <= i < j < |hs| ==> hs[i].at <= hs[j].at }

  /** Among the first `n` announces, the latest of this node came at this instant. */
  predicate Latest(hs: seq<Heard>, n: nat, k: Bytes, t: Time)
    requires n <= |hs|
  {
    && (exists m :: 0 <= m < n && hs[m].key == k && hs[m].at == t)
    && (forall m :: 0 <= m < n && hs[m].key == k ==> hs[m].at <= t)
  }

  predicate Dated(ns: Nodes, hs: seq<Heard>, n: nat)
    requires n <= |hs|
  {
    forall k :: k in ns ==> Latest(hs, n, k, ns[k].lastHeard)
  }

  lemma LatestOn(hs: seq<Heard>, n: nat, k: Bytes, t: Time)
    requires Monotone(hs) && n < |hs|
    ensures hs[n].key != k && Latest(hs, n, k, t) ==> Latest(hs, n + 1, k, t)
    ensures hs[n].key == k ==> Latest(hs, n + 1, k, hs[n].at)
  {
  }

  lemma Survivors(before: Nodes, after: Nodes, h: Heard, k: Bytes)
    requires Announced(before, after, h.key, h.info, h.usable, h.at) && k in after
    ensures k != h.key ==> k in before && after[k] == before[k]
    ensures k == h.key ==> after[k].lastHeard == h.at
  {
    if h.key !in before && k != h.key {
      assert k in after - {h.key};
    }
  }

  lemma DatedStep(before: Nodes, after: Nodes, hs: seq<Heard>, n: nat)
    requires Monotone(hs) && n < |hs| && Dated(before, hs, n)
    requires Announced(before, after, hs[n].key, hs[n].info, hs[n].usable, hs[n].at)
    ensures Dated(after, hs, n + 1)
  {
    forall k | k in after
      ensures Latest(hs, n + 1, k, after[k].lastHeard)
    {
      Survivors(before, after, hs[n], k);
      LatestOn(hs, n, k, after[k].lastHeard);
    }
  }

  lemma SizeStep(before: Nodes, after: Nodes, h: Heard)
    requires Announced(before, after, h.key, h.info, h.usable, h.at) && |before| <= MAX_NODES
    ensures |after| <= MAX_NODES
  {
    if h.key in before {
      assert after.Keys == before.Keys;
    } else {
      assert after.Keys == (after - {h.key}).Keys + {h.key};
    }
  }

  predicate Sound(ns: Nodes, hs: seq<Heard>, n: nat)
    requires n <= |hs|
  {
    Dated(ns, hs, n) && |ns| <= MAX_NODES
  }

  lemma SoundStep(before: Nodes, after: Nodes, hs: seq<Heard>, n: nat)
    requires Monotone(hs) && n < |hs| && Sound(before, hs, n)
    requires Announced(before, after, hs[n].key, hs[n].info, hs[n].usable, hs[n].at)
    ensures Sound(after, hs, n + 1)
  {
    DatedStep(before, after, hs, n);
    SizeStep(before, after, hs[n]);
  }

  lemma InOrderOfTime(ns: seq<Nodes>, hs: seq<Heard>)
    requires Run(ns, hs)
    ensures Monotone(hs)
  {
  }

  /** The table never holds more than 256 nodes, each dated by its latest announce. */
  lemma {:induction false} AlwaysDated(ns: seq<Nodes>, hs: seq<Heard>, n: nat)
    requires |ns| == |hs| + 1 && Run(ns, hs) && n < |ns|
    ensures Sound(ns[n], hs, n)
  {
    hide Run, Sound, Announced;
    if n == 0 {
      SoundAtStart(ns, hs);
    } else {
      AlwaysDated(ns, hs, n - 1);
      Step(ns, hs, n - 1);
      InOrderOfTime(ns, hs);
      SoundStep(ns[n - 1], ns[n], hs, n - 1);
    }
  }

  lemma SoundAtStart(ns: seq<Nodes>, hs: seq<Heard>)
    requires Run(ns, hs)
    ensures Sound(ns[0], hs, 0)
  {
  }

  /** Everybody else who has announced at or after this instant. */
  function Others(hs: seq<Heard>, n: nat, since: Time, k: Bytes): set<Bytes>
    requires n <= |hs|
  {
    set m | 0 <= m < n && hs[m].at >= since && hs[m].key != k :: hs[m].key
  }

  /** A tracked node is forgotten only after more than thirty minutes of silence, or once
      256 other distinct nodes have announced no earlier than it last did; as long as it
      is tracked it keeps the moment it was first heard. */
  lemma SeniorityLost(ns: seq<Nodes>, hs: seq<Heard>, n: nat, k: Bytes)
    requires Run(ns, hs) && n < |hs| && k in ns[n]
    ensures k in ns[n + 1] ==> ns[n + 1][k].firstHeard == ns[n][k].firstHeard
    ensures k !in ns[n + 1] ==>
              || hs[n].at - ns[n][k].lastHeard > STALE_AFTER
              || |Others(hs, n + 1, ns[n][k].lastHeard, k)| >= MAX_NODES
  {
    Step(ns, hs, n);
    AlwaysDated(ns, hs, n);
    var key := hs[n].key;
    if k in ns[n + 1] {
      if key !in ns[n] {
        assert k in ns[n + 1] - {key};
      }
    } else if hs[n].at - ns[n][k].lastHeard <= STALE_AFTER {
      var kept := ns[n + 1] - {key};
      OthersHeard(ns[n], kept, hs, n, k);
    }
  }

  lemma HeardSince(hs: seq<Heard>, n: nat, j: Bytes, t: Time, since: Time, k: Bytes)
    requires n < |hs| && Latest(hs, n, j, t) && t >= since && j != k
    ensures j in Others(hs, n + 1, since, k)
  {
    var m :| 0 <= m < n && hs[m].key == j && hs[m].at == t;
  }

  lemma OthersHeard(before: Nodes, kept: Nodes, hs: seq<Heard>, n: nat, k: Bytes)
    requires Monotone(hs) && n < |hs| && Dated(before, hs, n) && k in before && hs[n].key !in before
    requires MadeRoom(before, kept, hs[n].at) && k !in kept && !Stale(before[k], hs[n].at)
    ensures |Others(hs, n + 1, before[k].lastHeard, k)| >= MAX_NODES
  {
    var since := before[k].lastHeard;
    forall j | j in kept
      ensures j in Others(hs, n + 1, since, k)
    {
      HeardSince(hs, n, j, kept[j].lastHeard, since, k);
    }
    NewcomerHeard(hs, n, k, since);
    assert hs[n].key !in kept;
    SubsetSize(kept.Keys + {hs[n].key}, Others(hs, n + 1, since, k));
  }

  lemma NewcomerHeard(hs: seq<Heard>, n: nat, k: Bytes, since: Time)
    requires Monotone(hs) && n < |hs| && Latest(hs, n, k, since) && hs[n].key != k
    ensures hs[n].key in Others(hs, n + 1, since, k)
  {
    var m :| 0 <= m < n && hs[m].key == k && hs[m].at == since;
    assert hs[m].at <= hs[n].at;
  }

  /** Announce `n` finds this node, if tracked at all, heard within the window and with
      fewer than 256 others announced since. */
  predicate Present(nodes: Nodes, hs: seq<Heard>, n: nat, k: Bytes)
    requires n < |hs|
  {
    k in nodes ==>
      && hs[n].at - nodes[k].lastHeard <= STALE_AFTER
      && |Others(hs, n + 1, nodes[k].lastHeard, k)| < MAX_NODES
  }

  /** From one moment of a run to a later one: a node tracked throughout is as senior
      as it was. */
  lemma {:induction false} SeniorityKept(ns: seq<Nodes>, hs: seq<Heard>, i: nat, j: nat, k: Bytes)
    requires |ns| == |hs| + 1 && Run(ns, hs) && i <= j < |ns| && k in ns[i]
    requires forall n :: i <= n < j ==> Present(ns[n], hs, n, k)
    ensures k in ns[j] && ns[j][k].firstHeard == ns[i][k].firstHeard
  {
    hide Run, Others;
    if i < j {
      SeniorityKept(ns, hs, i, j - 1, k);
      SeniorityLost(ns, hs, j - 1, k);
    }
  }
}
