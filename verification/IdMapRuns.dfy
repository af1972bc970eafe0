/** The cache against its registration history, over every run of bubble creations,
    registrations, lookups and clock advances. */
module IdMapRuns {
  import opened Prelude
  import opened IdMap

  datatype Book = Book(
    cache: Cache,
    clock: Time,
    tick: nat,                            // operations so far
    stamp: map<Bubble, nat>,              // last touch
    ledger: map<Hex, (Bubble, Hex)>,      // id -> latest (bubble, recipient) registered under it
    when: map<Hex, nat>,                  // id -> when that was
    entered: map<Bubble, nat>,            // when the bubble last joined the eviction list
    clash: bool)                          // some id has been registered twice

  datatype Event =
    | Create(b: Bubble, expiresAt: Time)
    | Register(b: Bubble, recipient: Hex, id: Hex)
    | Look(id: Hex)
    | Tick(t: Time)

  /** The source's own demand on registrations: one per bubble and recipient. */
  predicate Enabled(k: Book, e: Event) {
    match e
    case Create(b, _) => b !in k.cache.views
    case Register(b, r, id) => b in k.cache.views && r !in k.cache.views[b] && id != []
    case Look(_) => true
    case Tick(t) => k.clock <= t
  }

  function Enrol(k: Book, b: Bubble, r: Hex, id: Hex): Book {
    var c1 := EvictExpired(k.cache, k.clock);
    k.(cache := Record(c1, b, r, id),
       tick := k.tick + 1,
       stamp := k.stamp[b := k.tick],
       ledger := k.ledger[id := (b, r)],
       when := k.when[id := k.tick],
       entered := if b in c1.lru then k.entered else k.entered[b := k.tick],
       clash := k.clash || id in k.ledger)
  }

  function Apply(k: Book, e: Event): Book
    requires Enabled(k, e)
  {
    match e
    case Create(b, x) => k.(cache := NewBubble(k.cache, b, x))
    case Register(b, r, id) =>
      var k1 := Enrol(k, b, r, id);
      k1.(cache := EnforceCap(k1.cache))
    case Look(id) =>
      var (c', hit) := Lookup(k.cache, id, k.clock);
      k.(cache := c', tick := k.tick + 1, stamp := if hit.Some? then k.stamp[hit.value := k.tick] else k.stamp)
    case Tick(t) => k.(clock := t)
  }

  predicate Init(k: Book) {
    && k.cache.index == map[] && k.cache.lru == [] && k.cache.views == map[] && k.cache.expires == map[]
    && k.tick == 0 && k.stamp == map[] && k.ledger == map[] && k.when == map[] && k.entered == map[] && !k.clash
  }

  // ---- Touch order ---------------------------------------------------------

  /** The list is in strictly decreasing order of last touch. */
  predicate Recent(lru: seq<Bubble>, stamp: map<Bubble, nat>, tick: nat) {
    && (forall i :: 0 <= i < |lru| ==> lru[i] in stamp && stamp[lru[i]] < tick)
    && (forall i, j :: 0 <= i < j < |lru| ==> lru[i] in stamp && lru[j] in stamp && stamp[lru[i]] > stamp[lru[j]])
  }

  lemma RecentWithout(lru: seq<Bubble>, b: Bubble, stamp: map<Bubble, nat>, tick: nat)
    requires Recent(lru, stamp, tick)
    ensures Recent(Without(lru, b), stamp, tick)
  {
    var at := WithoutEmbeds(lru, b);
  }

  lemma RecentTouch(lru: seq<Bubble>, b: Bubble, stamp: map<Bubble, nat>, tick: nat)
    requires Recent(lru, stamp, tick)
    ensures Recent(MoveToFront(lru, b), stamp[b := tick], tick + 1)
  {
    RecentWithout(lru, b, stamp, tick);
    var t := Without(lru, b);
    assert forall i :: 0 <= i < |t| ==> t[i] in t;
  }

  // ---- Agreement with the history ------------------------------------------

  /** A hit is always the latest registration under that id, and the id is that
      recipient's view of the bubble. */
  predicate Agrees(c: Cache, ledger: map<Hex, (Bubble, Hex)>) {
    && (forall id :: id in c.index ==> id in ledger && ledger[id].0 == c.index[id])
    && (forall id :: id in ledger ==>
          ledger[id].0 in c.views && ledger[id].1 in c.views[ledger[id].0] && c.views[ledger[id].0][ledger[id].1] == id)
  }

  /** While no id repeats, a view belongs to one bubble and one recipient. */
  predicate Owned(views: map<Bubble, map<Hex, Hex>>, ledger: map<Hex, (Bubble, Hex)>) {
    forall b, r :: b in views && r in views[b] ==> views[b][r] in ledger && ledger[views[b][r]] == (b, r)
  }

  predicate Dated(lru: seq<Bubble>, entered: map<Bubble, nat>) {
    forall i :: 0 <= i < |lru| ==> lru[i] in entered
  }

  /** A view is indexed exactly when its bubble is on the list and the view was
      registered since the bubble last joined it. */
  predicate Exact(c: Cache, ledger: map<Hex, (Bubble, Hex)>, when: map<Hex, nat>, entered: map<Bubble, nat>) {
    forall id :: id in ledger ==>
      id in when && (id in c.index <==> Listed(c, ledger[id].0, when[id], entered))
  }

  predicate Listed(c: Cache, b: Bubble, when: nat, entered: map<Bubble, nat>) {
    b in c.lru && b in entered && entered[b] <= when
  }

  lemma RemoveAgrees(c: Cache, b: Bubble, ledger: map<Hex, (Bubble, Hex)>)
    requires Agrees(c, ledger)
    ensures Agrees(RemoveBubble(c, b), ledger)
  {
  }

  lemma RemoveExact(c: Cache, b: Bubble, ledger: map<Hex, (Bubble, Hex)>, when: map<Hex, nat>,
                    entered: map<Bubble, nat>)
    requires Agrees(c, ledger) && Owned(c.views, ledger) && Exact(c, ledger, when, entered)
    ensures Exact(RemoveBubble(c, b), ledger, when, entered)
  {
    var c' := RemoveBubble(c, b);
    forall id | id in ledger
      ensures id in c'.index <==> Listed(c', ledger[id].0, when[id], entered)
    {
      OwnerOnly(c, b, id, ledger);
    }
  }

  lemma OwnerOnly(c: Cache, b: Bubble, id: Hex, ledger: map<Hex, (Bubble, Hex)>)
    requires Agrees(c, ledger) && Owned(c.views, ledger) && id in ledger
    ensures id in ViewsOf(c, b).Values <==> ledger[id].0 == b
  {
    if ledger[id].0 == b {
      assert ViewsOf(c, b)[ledger[id].1] == id;
    }
    if id in ViewsOf(c, b).Values {
      var x :| x in ViewsOf(c, b) && ViewsOf(c, b)[x] == id;
    }
  }

  /** The part of the invariant that removing a bubble keeps. */
  predicate Kept(c: Cache, k: Book) {
    && Recent(c.lru, k.stamp, k.tick)
    && Agrees(c, k.ledger)
    && Dated(c.lru, k.entered)
    && (!k.clash ==> Owned(c.views, k.ledger) && Exact(c, k.ledger, k.when, k.entered))
  }

  predicate Before(m: map<Hex, nat>, n: map<Bubble, nat>, tick: nat) {
    && (forall id :: id in m ==> m[id] < tick)
    && (forall b :: b in n ==> n[b] < tick)
  }

  predicate Fits(c: Cache) { c.maxSize > 0 ==> |c.index| <= c.maxSize }

  predicate Inv(k: Book) {
    && Valid(k.cache)
    && Kept(k.cache, k)
    && Before(k.when, k.entered, k.tick)
    && Fits(k.cache)
  }

  lemma RemoveKept(c: Cache, b: Bubble, k: Book)
    requires Kept(c, k)
    ensures Kept(RemoveBubble(c, b), k)
  {
    RecentWithout(c.lru, b, k.stamp, k.tick);
    RemoveAgrees(c, b, k.ledger);
    var at := WithoutEmbeds(c.lru, b);
    if !k.clash {
      RemoveExact(c, b, k.ledger, k.when, k.entered);
    }
  }

  lemma {:induction false} EvictKept(c: Cache, now: Time, k: Book)
    requires Kept(c, k)
    ensures Kept(EvictExpired(c, now), k)
    decreases |c.lru|
  {
    if |c.lru| > 0 && now > ExpiryOf(c, c.lru[|c.lru| - 1]) {
      RemoveKept(c, c.lru[|c.lru| - 1], k);
      EvictKept(RemoveBubble(c, c.lru[|c.lru| - 1]), now, k);
    }
  }

  lemma {:induction false} CapKept(c: Cache, k: Book)
    requires Kept(c, k)
    ensures Kept(EnforceCap(c), k)
    decreases |c.lru|
  {
    if !(c.maxSize == 0 || |c.index| <= c.maxSize || |c.lru| == 0) {
      RemoveKept(c, c.lru[|c.lru| - 1], k);
      CapKept(RemoveBubble(c, c.lru[|c.lru| - 1]), k);
    }
  }

  lemma RecordAgrees(c: Cache, b: Bubble, r: Hex, id: Hex, ledger: map<Hex, (Bubble, Hex)>)
    requires Agrees(c, ledger) && b in c.views && r !in c.views[b]
    ensures Agrees(Record(c, b, r, id), ledger[id := (b, r)])
  {
  }

  lemma RecordOwned(c: Cache, b: Bubble, r: Hex, id: Hex, ledger: map<Hex, (Bubble, Hex)>)
    requires Owned(c.views, ledger) && b in c.views && r !in c.views[b] && id !in ledger
    ensures Owned(Record(c, b, r, id).views, ledger[id := (b, r)])
  {
  }

  lemma RecordDated(c: Cache, b: Bubble, r: Hex, id: Hex, tick: nat, entered: map<Bubble, nat>)
    requires Dated(c.lru, entered)
    ensures Dated(Record(c, b, r, id).lru, if b in c.lru then entered else entered[b := tick])
  {
    var t := Without(c.lru, b);
    assert forall i :: 0 <= i < |t| ==> t[i] in t;
  }

  lemma RecordExact(c: Cache, b: Bubble, r: Hex, id: Hex, tick: nat,
                    ledger: map<Hex, (Bubble, Hex)>, when: map<Hex, nat>, entered: map<Bubble, nat>)
    requires Exact(c, ledger, when, entered) && Dated(c.lru, entered) && id !in ledger
    requires forall x :: x in when ==> when[x] < tick
    requires forall x :: x in entered ==> entered[x] < tick
    ensures Exact(Record(c, b, r, id), ledger[id := (b, r)], when[id := tick],
                  if b in c.lru then entered else entered[b := tick])
  {
    var c' := Record(c, b, r, id);
    var entered' := if b in c.lru then entered else entered[b := tick];
    forall x | x in ledger
      ensures x in c'.index <==> Listed(c', ledger[x].0, when[x], entered')
    {
      assert x in c.index <==> Listed(c, ledger[x].0, when[x], entered);
    }
  }

  lemma EnrolKept(k: Book, b: Bubble, r: Hex, id: Hex)
    requires Inv(k) && Enabled(k, Register(b, r, id))
    ensures var k' := Enrol(k, b, r, id); Kept(k'.cache, k')
  {
    var c1 := EvictExpired(k.cache, k.clock);
    EvictKept(k.cache, k.clock, k);
    EvictFrame(k.cache, k.clock);
    RecentTouch(c1.lru, b, k.stamp, k.tick);
    RecordAgrees(c1, b, r, id, k.ledger);
    RecordDated(c1, b, r, id, k.tick, k.entered);
    if !k.clash && id !in k.ledger {
      RecordOwned(c1, b, r, id, k.ledger);
      RecordExact(c1, b, r, id, k.tick, k.ledger, k.when, k.entered);
    }
  }

  lemma RegisterInv(k: Book, b: Bubble, r: Hex, id: Hex)
    requires Inv(k) && Enabled(k, Register(b, r, id))
    ensures Inv(Apply(k, Register(b, r, id)))
  {
    hide Kept, EnforceCap, EvictExpired, Record;
    RegisterValid(k.cache, b, r, id, k.clock);
    EnrolKept(k, b, r, id);
    var k1 := Enrol(k, b, r, id);
    CapKept(k1.cache, k1);
    RegisterFrame(k.cache, b, r, id, k.clock);
    KeptSame(EnforceCap(k1.cache), k1, k1.(cache := EnforceCap(k1.cache)));
  }

  lemma KeptSame(c: Cache, k: Book, k': Book)
    requires Kept(c, k) && k' == k.(cache := k'.cache)
    ensures Kept(c, k')
  {
  }

  lemma RegisterFrame(c: Cache, b: Bubble, r: Hex, id: Hex, now: Time)
    ensures RegisterView(c, b, r, id, now).maxSize == c.maxSize
  {
    EvictFrame(c, now);
    CapFrame(Record(EvictExpired(c, now), b, r, id));
  }

  lemma TouchKept(c: Cache, b: Bubble, k: Book)
    requires Kept(c, k) && b in c.lru
    ensures Kept(c.(lru := MoveToFront(c.lru, b)), k.(stamp := k.stamp[b := k.tick], tick := k.tick + 1))
  {
    RecentTouch(c.lru, b, k.stamp, k.tick);
    TouchListed(c, b, k.ledger, k.when, k.entered);
  }

  lemma TouchListed(c: Cache, b: Bubble, ledger: map<Hex, (Bubble, Hex)>, when: map<Hex, nat>,
                    entered: map<Bubble, nat>)
    requires b in c.lru && Dated(c.lru, entered)
    ensures var c' := c.(lru := MoveToFront(c.lru, b));
            && Dated(c'.lru, entered)
            && (Exact(c, ledger, when, entered) ==> Exact(c', ledger, when, entered))
  {
    var t := Without(c.lru, b);
    assert forall i :: 0 <= i < |t| ==> t[i] in t;
    var c' := c.(lru := MoveToFront(c.lru, b));
    assert forall x :: x in c'.lru <==> x in c.lru;
  }

  lemma Fewer(m: map<Hex, Bubble>, drop: set<Hex>)
    ensures |m - drop| <= |m|
  {
    assert (m - drop).Keys <= m.Keys;
    SubsetSize((m - drop).Keys, m.Keys);
  }

  /** A lookup that misses only lets time pass. */
  lemma KeptLater(c: Cache, k: Book, k': Book)
    requires Kept(c, k) && k' == k.(cache := k'.cache, tick := k.tick + 1)
    ensures Kept(c, k')
  {
  }

  lemma LookKept(k: Book, id: Hex)
    requires Inv(k)
    ensures Kept(Apply(k, Look(id)).cache, Apply(k, Look(id)))
  {
    hide Kept, RemoveBubble;
    var k' := Apply(k, Look(id));
    if id !in k.cache.index {
      KeptLater(k.cache, k, k');
    } else {
      var b := k.cache.index[id];
      if k.clock > ExpiryOf(k.cache, b) {
        RemoveKept(k.cache, b, k);
        KeptLater(RemoveBubble(k.cache, b), k, k');
      } else {
        TouchKept(k.cache, b, k);
        KeptSame(k'.cache, k.(stamp := k.stamp[b := k.tick], tick := k.tick + 1), k');
      }
    }
  }

  lemma LookFits(c: Cache, id: Hex, now: Time)
    requires Fits(c)
    ensures Fits(Lookup(c, id, now).0)
  {
    if id in c.index {
      Fewer(c.index, ViewsOf(c, c.index[id]).Values);
    }
  }

  lemma BeforeLater(m: map<Hex, nat>, n: map<Bubble, nat>, tick: nat)
    requires Before(m, n, tick)
    ensures Before(m, n, tick + 1)
  {
  }

  lemma LookInv(k: Book, id: Hex)
    requires Inv(k)
    ensures Inv(Apply(k, Look(id)))
  {
    hide Kept, Valid, Fits, Before, Lookup;
    LookupValid(k.cache, id, k.clock);
    LookKept(k, id);
    LookFits(k.cache, id, k.clock);
    BeforeLater(k.when, k.entered, k.tick);
  }

  lemma CreateKept(c: Cache, b: Bubble, x: Time, k: Book)
    requires Kept(c, k) && b !in c.views
    ensures Kept(NewBubble(c, b, x), k)
  {
    var c' := NewBubble(c, b, x);
    assert forall y :: y in c.views ==> c'.views[y] == c.views[y];
  }

  lemma CreateInv(k: Book, b: Bubble, x: Time)
    requires Inv(k) && b !in k.cache.views
    ensures Inv(Apply(k, Create(b, x)))
  {
    CreateKept(k.cache, b, x, k);
    CreateValid(k.cache, b, x);
    KeptSame(NewBubble(k.cache, b, x), k, Apply(k, Create(b, x)));
  }

  lemma StepInv(k: Book, e: Event)
    requires Inv(k) && Enabled(k, e)
    ensures Inv(Apply(k, e))
  {
    match e
    case Create(b, x) => CreateInv(k, b, x);
    case Register(b, r, id) => RegisterInv(k, b, r, id);
    case Look(id) => LookInv(k, id);
    case Tick(_) =>
  }

  predicate Run(ks: seq<Book>, es: seq<Event>) {
    && |ks| == |es| + 1
    && Init(ks[0])
    && (forall i {:trigger es[i]} :: 0 <= i < |es| ==> Enabled(ks[i], es[i]) && ks[i + 1] == Apply(ks[i], es[i]))
  }

  lemma Step(ks: seq<Book>, es: seq<Event>, i: nat)
    requires Run(ks, es) && i < |es|
    ensures Enabled(ks[i], es[i]) && ks[i + 1] == Apply(ks[i], es[i])
  {
  }

  lemma {:induction false} Reachable(ks: seq<Book>, es: seq<Event>, n: nat)
    requires Run(ks, es) && n < |ks|
    ensures Inv(ks[n])
  {
    if n > 0 {
      Reachable(ks, es, n - 1);
      Step(ks, es, n - 1);
      StepInv(ks[n - 1], es[n - 1]);
    }
  }

  /** At every moment of every run the index fits, the list is in last-touch order,
      and every indexed id is a view of a listed bubble. */
  lemma CacheSafety(ks: seq<Book>, es: seq<Event>, n: nat)
    requires Run(ks, es) && n < |ks|
    ensures var c := ks[n].cache;
            && (c.maxSize > 0 ==> |c.index| <= c.maxSize)
            && (forall id :: id in c.index ==> c.index[id] in c.lru && id in ViewsOf(c, c.index[id]).Values)
            && (forall i, j :: 0 <= i < j < |c.lru| ==>
                  c.lru[i] in ks[n].stamp && c.lru[j] in ks[n].stamp && ks[n].stamp[c.lru[i]] > ks[n].stamp[c.lru[j]])
  {
    Reachable(ks, es, n);
  }

  /** A lookup never returns an expired bubble or one the id was not last registered
      for; and while no id has been registered twice, it hits exactly when the history
      says it should. */
  lemma LookupAgrees(ks: seq<Book>, es: seq<Event>, n: nat, id: Hex)
    requires Run(ks, es) && n < |ks|
    ensures var k := ks[n];
            var hit := Lookup(k.cache, id, k.clock).1;
            && (hit.Some? ==>
                  && id in k.ledger && k.ledger[id].0 == hit.value
                  && ViewFor(k.cache, hit.value, k.ledger[id].1) == Some(id)
                  && k.clock <= ExpiryOf(k.cache, hit.value))
            && (!k.clash ==>
                  (hit.Some? <==>
                    && id in k.ledger && id in k.when
                    && Listed(k.cache, k.ledger[id].0, k.when[id], k.entered)
                    && k.clock <= ExpiryOf(k.cache, k.ledger[id].0)))
  {
    Reachable(ks, es, n);
  }

  // ---- What makes the cache forget -----------------------------------------

  /** The indexed ids of bubbles touched no earlier than this one. */
  function AsRecent(c: Cache, stamp: map<Bubble, nat>, b: Bubble): set<Hex> {
    set id | id in c.index && c.index[id] in stamp && b in stamp && stamp[c.index[id]] >= stamp[b]
  }

  lemma KeptAreRecent(c: Cache, stamp: map<Bubble, nat>, tick: nat, p: nat)
    requires Valid(c) && Recent(c.lru, stamp, tick) && p < |c.lru|
    ensures DropOldest(c, |c.lru| - 1 - p).index.Keys <= AsRecent(c, stamp, c.lru[p])
  {
    var d := DropOldest(c, |c.lru| - 1 - p);
    AllValid(c, |c.lru| - 1 - p);
    forall id | id in d.index
      ensures id in AsRecent(c, stamp, c.lru[p])
    {
      assert d.index[id] in d.lru;
      var q :| 0 <= q < |d.lru| && d.lru[q] == d.index[id];
      assert c.lru[q] == d.lru[q] && q <= p;
    }
  }

  lemma PrefixHas(s: seq<Bubble>, n: nat)
    requires n <= |s|
    ensures forall q :: 0 <= q < n ==> s[q] in s[..n]
  {
    assert forall q :: 0 <= q < n ==> s[..n][q] == s[q];
  }

  /** The cap forgets a bubble only when the ids of bubbles touched no earlier than it are
      already too many. */
  lemma CapForgets(c: Cache, stamp: map<Bubble, nat>, tick: nat, b: Bubble)
    requires Valid(c) && Recent(c.lru, stamp, tick) && b in c.lru && b !in EnforceCap(c).lru
    ensures 0 < c.maxSize < |AsRecent(c, stamp, b)|
  {
    hide Valid, Recent, AsRecent, EnforceCap, DropOldest, SizeAfter;
    var n := CapDropsShortestTail(c);
    var p := DroppedAt(c, n, b);
    CutOff(c, stamp, tick, p);
  }

  lemma DroppedAt(c: Cache, n: nat, b: Bubble) returns (p: nat)
    requires n <= |c.lru| && b in c.lru && b !in DropOldest(c, n).lru
    ensures |c.lru| - n <= p < |c.lru| && c.lru[p] == b
  {
    p :| 0 <= p < |c.lru| && c.lru[p] == b;
    PrefixHas(c.lru, |c.lru| - n);
  }

  lemma CutOff(c: Cache, stamp: map<Bubble, nat>, tick: nat, p: nat)
    requires Valid(c) && Recent(c.lru, stamp, tick) && p < |c.lru|
    ensures SizeAfter(c, |c.lru| - 1 - p) <= |AsRecent(c, stamp, c.lru[p])|
  {
    hide Valid, Recent, AsRecent, DropOldest;
    KeptAreRecent(c, stamp, tick, p);
    SubsetSize(DropOldest(c, |c.lru| - 1 - p).index.Keys, AsRecent(c, stamp, c.lru[p]));
  }

  /** The sweep forgets only expired bubbles. */
  lemma SweepForgets(c: Cache, now: Time, b: Bubble)
    requires Distinct(c.lru) && b in c.lru && b !in EvictExpired(c, now).lru
    ensures now > ExpiryOf(c, b)
  {
    hide EvictExpired, ExpiryOf;
    var n := EvictDropsExpiredTail(c, now);
    var p :| 0 <= p < |c.lru| && c.lru[p] == b;
    PrefixHas(c.lru, |c.lru| - n);
  }

  lemma RegisterForgets(k: Book, b: Bubble, r: Hex, id: Hex, x: Bubble)
    requires Inv(k) && Enabled(k, Register(b, r, id)) && x in k.cache.lru
             && x !in Apply(k, Register(b, r, id)).cache.lru
    ensures var k1 := Enrol(k, b, r, id);
            k.clock > ExpiryOf(k.cache, x) || 0 < k.cache.maxSize < |AsRecent(k1.cache, k1.stamp, x)|
  {
    hide EnforceCap, EvictExpired, AsRecent, ExpiryOf;
    var k1 := Enrol(k, b, r, id);
    if x !in EvictExpired(k.cache, k.clock).lru {
      SweepForgets(k.cache, k.clock, x);
    } else {
      EvictFrame(k.cache, k.clock);
      EnrolKept(k, b, r, id);
      EvictValid(k.cache, k.clock);
      RecordValid(EvictExpired(k.cache, k.clock), b, r, id);
      CapForgets(k1.cache, k1.stamp, k1.tick, x);
    }
  }

  /** In every run the cache forgets a bubble only because it has expired, or because a
      registration leaves more ids than the cap allows on bubbles touched no earlier. */
  lemma ForgottenOnlyWhen(ks: seq<Book>, es: seq<Event>, n: nat, b: Bubble)
    requires Run(ks, es) && n < |es| && b in ks[n].cache.lru && b !in ks[n + 1].cache.lru
    ensures || ks[n].clock > ExpiryOf(ks[n].cache, b)
            || (es[n].Register? && var k1 := Enrol(ks[n], es[n].b, es[n].recipient, es[n].id);
                0 < k1.cache.maxSize < |AsRecent(k1.cache, k1.stamp, b)|)
  {
    hide Inv, Apply, Enrol, AsRecent;
    Reachable(ks, es, n);
    Step(ks, es, n);
    match es[n]
    case Register(x, r, id) =>
      RegisterForgets(ks[n], x, r, id, b);
      EnrolSize(ks[n], x, r, id);
    case Look(id) => LookForgets(ks[n], id, b);
    case Create(x, t) => CreateForgets(ks[n], x, t);
    case Tick(t) => TickForgets(ks[n], t);
  }

  lemma EnrolSize(k: Book, b: Bubble, r: Hex, id: Hex)
    ensures Enrol(k, b, r, id).cache.maxSize == k.cache.maxSize
  {
    EvictFrame(k.cache, k.clock);
  }

  lemma LookForgets(k: Book, id: Hex, b: Bubble)
    requires b in k.cache.lru && b !in Apply(k, Look(id)).cache.lru
    ensures k.clock > ExpiryOf(k.cache, b)
  {
  }

  lemma CreateForgets(k: Book, b: Bubble, t: Time)
    requires Enabled(k, Create(b, t))
    ensures Apply(k, Create(b, t)).cache.lru == k.cache.lru
  {
  }

  lemma TickForgets(k: Book, t: Time)
    requires Enabled(k, Tick(t))
    ensures Apply(k, Tick(t)).cache.lru == k.cache.lru
  {
  }

  // ---- And exactly when ----------------------------------------------------

  /** An indexed id is a view of its own bubble only. */
  predicate Sole(c: Cache) {
    forall id, x :: id in c.index && x in c.views && id in c.views[x].Values ==> c.index[id] == x
  }

  lemma OwnedIsSole(c: Cache, ledger: map<Hex, (Bubble, Hex)>)
    requires Agrees(c, ledger) && Owned(c.views, ledger)
    ensures Sole(c)
  {
    forall id, x | id in c.index && x in c.views && id in c.views[x].Values
      ensures c.index[id] == x
    {
      OwnerOnly(c, x, id, ledger);
    }
  }

  lemma RecentAreKept(c: Cache, stamp: map<Bubble, nat>, tick: nat, n: nat, p: nat)
    requires Valid(c) && Recent(c.lru, stamp, tick) && Sole(c) && n <= |c.lru| && p < |c.lru| - n
    ensures AsRecent(c, stamp, c.lru[p]) <= DropOldest(c, n).index.Keys
  {
    var tail := c.lru[|c.lru| - n..];
    forall id | id in AsRecent(c, stamp, c.lru[p])
      ensures id !in IdsOf(c, tail)
    {
      forall i | 0 <= i < |tail|
        ensures id !in ViewsOf(c, tail[i]).Values
      {
        assert tail[i] == c.lru[|c.lru| - n + i];
        assert stamp[tail[i]] < stamp[c.lru[p]];
      }
    }
  }

  lemma CapForgetsExactly(c: Cache, stamp: map<Bubble, nat>, tick: nat, b: Bubble)
    requires Valid(c) && Recent(c.lru, stamp, tick) && Sole(c) && b in c.lru
    ensures b !in EnforceCap(c).lru <==> 0 < c.maxSize < |AsRecent(c, stamp, b)|
  {
    hide Valid, Recent, Sole, AsRecent, EnforceCap, DropOldest, SizeAfter;
    if b !in EnforceCap(c).lru {
      CapForgets(c, stamp, tick, b);
    } else {
      var n := CapDropsShortestTail(c);
      var p := KeptAt(c, n, b);
      RecentAreKept(c, stamp, tick, n, p);
      SizeIs(c, n);
      SubsetSize(AsRecent(c, stamp, b), DropOldest(c, n).index.Keys);
    }
  }

  lemma SizeIs(c: Cache, n: nat)
    requires n <= |c.lru|
    ensures SizeAfter(c, n) == |DropOldest(c, n).index.Keys|
  {
  }

  lemma KeptAt(c: Cache, n: nat, b: Bubble) returns (p: nat)
    requires n <= |c.lru| && b in DropOldest(c, n).lru
    ensures p < |c.lru| - n && c.lru[p] == b
  {
    p :| 0 <= p < |c.lru| - n && c.lru[..|c.lru| - n][p] == b;
  }

  /** Everything on the list touched no later than this bubble has expired, itself included. */
  predicate OlderExpired(c: Cache, stamp: map<Bubble, nat>, now: Time, b: Bubble) {
    forall i :: 0 <= i < |c.lru| && c.lru[i] in stamp && b in stamp && stamp[c.lru[i]] <= stamp[b] ==>
      now > ExpiryOf(c, c.lru[i])
  }

  lemma SweepForgetsExactly(c: Cache, stamp: map<Bubble, nat>, tick: nat, now: Time, b: Bubble)
    requires Distinct(c.lru) && Recent(c.lru, stamp, tick) && b in c.lru
    ensures b !in EvictExpired(c, now).lru <==> OlderExpired(c, stamp, now, b)
  {
    hide EvictExpired, ExpiryOf;
    var n := EvictDropsExpiredTail(c, now);
    if b in EvictExpired(c, now).lru {
      var p := KeptAt(c, n, b);
      assert stamp[c.lru[|c.lru| - n - 1]] <= stamp[b];
    } else {
      var p := DroppedAt(c, n, b);
      assert forall i :: 0 <= i < p ==> stamp[c.lru[i]] > stamp[c.lru[p]];
    }
  }

  /** The condition under which a step makes the cache forget a listed bubble. */
  predicate Forgets(k: Book, e: Event, b: Bubble) {
    match e
    case Register(x, r, id) =>
      var k1 := Enrol(k, x, r, id);
      || (b != x && OlderExpired(k.cache, k.stamp, k.clock, b))
      || 0 < k1.cache.maxSize < |AsRecent(k1.cache, k1.stamp, b)|
    case Look(id) => id in k.cache.index && k.cache.index[id] == b && k.clock > ExpiryOf(k.cache, b)
    case _ => false
  }

  lemma EnrolSole(k: Book, x: Bubble, r: Hex, id: Hex)
    requires Inv(k) && Enabled(k, Register(x, r, id)) && !Enrol(k, x, r, id).clash
    ensures var k1 := Enrol(k, x, r, id); Valid(k1.cache) && Recent(k1.cache.lru, k1.stamp, k1.tick) && Sole(k1.cache)
  {
    hide Valid, Recent, Sole, EvictExpired, Record;
    EnrolKept(k, x, r, id);
    EvictFrame(k.cache, k.clock);
    EvictValid(k.cache, k.clock);
    RecordValid(EvictExpired(k.cache, k.clock), x, r, id);
    OwnedIsSole(Enrol(k, x, r, id).cache, Enrol(k, x, r, id).ledger);
  }

  lemma EnrolLists(k: Book, x: Bubble, r: Hex, id: Hex, b: Bubble)
    ensures b in Enrol(k, x, r, id).cache.lru <==> b == x || b in EvictExpired(k.cache, k.clock).lru
  {
  }

  lemma RegisterForgetsExactly(k: Book, x: Bubble, r: Hex, id: Hex, b: Bubble)
    requires Inv(k) && Enabled(k, Register(x, r, id)) && !Enrol(k, x, r, id).clash && b in k.cache.lru
    ensures b !in Apply(k, Register(x, r, id)).cache.lru <==> Forgets(k, Register(x, r, id), b)
  {
    hide Valid, Sole, EvictExpired, EnforceCap, Enrol, AsRecent, OlderExpired, Recent;
    var k1 := Enrol(k, x, r, id);
    EnrolSole(k, x, r, id);
    EnrolLists(k, x, r, id, b);
    ListedOnce(k.cache);
    SweepForgetsExactly(k.cache, k.stamp, k.tick, k.clock, b);
    if b in k1.cache.lru {
      CapForgetsExactly(k1.cache, k1.stamp, k1.tick, b);
    } else {
      CapOnlyDrops(k1.cache, b);
    }
  }

  lemma {:induction false} CapOnlyDrops(c: Cache, b: Bubble)
    requires b !in c.lru
    ensures b !in EnforceCap(c).lru
    decreases |c.lru|
  {
    hide EnforceCap;
    if Capped(c) {
      CapDone(c);
    } else {
      CapMore(c);
      CapOnlyDrops(RemoveBubble(c, c.lru[|c.lru| - 1]), b);
    }
  }

  /** In every run without an id collision, exactly when a step makes the cache forget a listed
      bubble: a registration of another bubble, when it and everything touched no later have
      expired; any registration that leaves more ids than the cap allows on bubbles touched no
      earlier; and a lookup of one of its ids once it has expired. */
  lemma ForgottenExactly(ks: seq<Book>, es: seq<Event>, n: nat, b: Bubble)
    requires |ks| == |es| + 1 && Run(ks, es) && n < |es| && !ks[n + 1].clash && b in ks[n].cache.lru
    ensures b !in ks[n + 1].cache.lru <==> Forgets(ks[n], es[n], b)
  {
    hide Run, Inv;
    Reachable(ks, es, n);
    Step(ks, es, n);
    match es[n]
    case Register(x, r, id) => RegisterForgetsExactly(ks[n], x, r, id, b);
    case Look(id) =>
    case Create(x, t) => CreateForgets(ks[n], x, t);
    case Tick(t) => TickForgets(ks[n], t);
  }
}
