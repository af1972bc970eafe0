/** The id-translation cache (internal/idmap/idmap.go): an LRU + TTL index from any
    recipient's message id to the relayed bubble, with one view per recipient. */
module IdMap {
  import opened Prelude

  /** Lower-case hex text, as the Go strings that key the cache. */
  type Hex = Bytes

  /** Stands for a `*Bubble`: bubbles live in the tables below, keyed by number. */
  type Bubble = nat

  datatype Cache = Cache(
    index: map<Hex, Bubble>,               // byMsgID
    lru: seq<Bubble>,                      // front = newest
    views: map<Bubble, map<Hex, Hex>>,     // recipient -> message id
    expires: map<Bubble, Time>,
    maxSize: nat)

  function Without(s: seq<Bubble>, b: Bubble): (r: seq<Bubble>)
    ensures |r| <= |s|
    ensures forall x :: x in r <==> x in s && x != b
  {
    if |s| == 0 then []
    else
      var front := Without(s[..|s| - 1], b);
      if s[|s| - 1] == b then front else front + [s[|s| - 1]]
  }

  lemma {:induction false} WithoutEmbeds(s: seq<Bubble>, b: Bubble) returns (at: seq<nat>)
    ensures |at| == |Without(s, b)|
    ensures forall k :: 0 <= k < |at| ==> at[k] < |s| && Without(s, b)[k] == s[at[k]] && s[at[k]] != b
    ensures forall k, l :: 0 <= k < l < |at| ==> at[k] < at[l]
  {
    if |s| == 0 {
      at := [];
    } else {
      at := WithoutEmbeds(s[..|s| - 1], b);
      if s[|s| - 1] != b {
        at := at + [|s| - 1];
      }
    }
  }

  lemma {:induction false} WithoutAbsent(s: seq<Bubble>, b: Bubble)
    requires b !in s
    ensures Without(s, b) == s
  {
    if |s| != 0 {
      WithoutAbsent(s[..|s| - 1], b);
    }
  }

  lemma WithoutLast(s: seq<Bubble>)
    requires |s| > 0 && Distinct(s)
    ensures Without(s, s[|s| - 1]) == s[..|s| - 1]
  {
    WithoutAbsent(s[..|s| - 1], s[|s| - 1]);
  }

  function ViewsOf(c: Cache, b: Bubble): map<Hex, Hex> { if b in c.views then c.views[b] else map[] }

  function ExpiryOf(c: Cache, b: Bubble): Time { if b in c.expires then c.expires[b] else 0 }

  function ViewFor(c: Cache, b: Bubble, recipient: Hex): Option<Hex> {
    if recipient in ViewsOf(c, b) then Some(ViewsOf(c, b)[recipient]) else None
  }

  function RemoveBubble(c: Cache, b: Bubble): Cache {
    c.(index := c.index - ViewsOf(c, b).Values, lru := Without(c.lru, b))
  }

  function EvictExpired(c: Cache, now: Time): Cache
    decreases |c.lru|
  {
    if |c.lru| == 0 then c
    else
      var b := c.lru[|c.lru| - 1];
      if now <= ExpiryOf(c, b) then c
      else
        Shrinks(c.lru);
        EvictExpired(RemoveBubble(c, b), now)
  }

  function EnforceCap(c: Cache): Cache
    decreases |c.lru|
  {
    if c.maxSize == 0 || |c.index| <= c.maxSize || |c.lru| == 0 then c
    else
      Shrinks(c.lru);
      EnforceCap(RemoveBubble(c, c.lru[|c.lru| - 1]))
  }

  lemma Shrinks(s: seq<Bubble>)
    requires |s| > 0
    ensures |Without(s, s[|s| - 1])| < |s|
  {
  }

  function MoveToFront(s: seq<Bubble>, b: Bubble): seq<Bubble> { [b] + Without(s, b) }

  function Record(c: Cache, b: Bubble, recipient: Hex, id: Hex): Cache {
    c.(views := c.views[b := ViewsOf(c, b)[recipient := id]],
       index := c.index[id := b],
       lru := MoveToFront(c.lru, b))
  }

  function RegisterView(c: Cache, b: Bubble, recipient: Hex, id: Hex, now: Time): Cache {
    if id == [] then c
    else EnforceCap(Record(EvictExpired(c, now), b, recipient, id))
  }

  function Lookup(c: Cache, id: Hex, now: Time): (Cache, Option<Bubble>) {
    if id !in c.index then (c, None)
    else
      var b := c.index[id];
      if now > ExpiryOf(c, b) then (RemoveBubble(c, b), None)
      else (c.(lru := if b in c.lru then MoveToFront(c.lru, b) else c.lru), Some(b))
  }

  function NewBubble(c: Cache, b: Bubble, expiresAt: Time): Cache {
    c.(views := c.views[b := map[]], expires := c.expires[b := expiresAt])
  }

  // ---- Structure -----------------------------------------------------------

  /** Every indexed id is a view of a bubble that is on the eviction list. */
  predicate Valid(c: Cache) {
    && Distinct(c.lru)
    && (forall id :: id in c.index ==> c.index[id] in c.lru && id in ViewsOf(c, c.index[id]).Values)
  }

  lemma WithoutDistinct(s: seq<Bubble>, b: Bubble)
    requires Distinct(s)
    ensures Distinct(Without(s, b))
  {
    var at := WithoutEmbeds(s, b);
  }

  lemma RemoveValid(c: Cache, b: Bubble)
    requires Valid(c)
    ensures Valid(RemoveBubble(c, b))
  {
    WithoutDistinct(c.lru, b);
    var c' := RemoveBubble(c, b);
    forall id | id in c'.index
      ensures c'.index[id] in c'.lru && id in ViewsOf(c', c'.index[id]).Values
    {
      assert id in c.index;
    }
  }

  lemma {:induction false} EvictValid(c: Cache, now: Time)
    requires Valid(c)
    ensures Valid(EvictExpired(c, now))
    decreases |c.lru|
  {
    if |c.lru| > 0 && now > ExpiryOf(c, c.lru[|c.lru| - 1]) {
      RemoveValid(c, c.lru[|c.lru| - 1]);
      EvictValid(RemoveBubble(c, c.lru[|c.lru| - 1]), now);
    }
  }

  lemma EmptyListEmptyIndex(c: Cache)
    requires Valid(c) && c.lru == []
    ensures c.index == map[]
  {
  }

  predicate Capped(c: Cache) { c.maxSize == 0 || |c.index| <= c.maxSize || |c.lru| == 0 }

  lemma CapDone(c: Cache)
    requires Capped(c)
    ensures EnforceCap(c) == c
  {
  }

  lemma CapMore(c: Cache)
    requires !Capped(c)
    ensures var d := RemoveBubble(c, c.lru[|c.lru| - 1]);
            EnforceCap(c) == EnforceCap(d) && |d.lru| < |c.lru| && d.maxSize == c.maxSize
  {
    Shrinks(c.lru);
  }

  /** The size bound holds on return: an empty list means an empty index. */
  lemma {:induction false} CapValid(c: Cache)
    requires Valid(c)
    ensures Valid(EnforceCap(c))
    ensures c.maxSize > 0 ==> |EnforceCap(c).index| <= c.maxSize
    decreases |c.lru|
  {
    hide EnforceCap, RemoveBubble, Valid;
    if Capped(c) {
      CapDone(c);
      if |c.lru| == 0 {
        EmptyListEmptyIndex(c);
      }
    } else {
      CapMore(c);
      RemoveValid(c, c.lru[|c.lru| - 1]);
      CapValid(RemoveBubble(c, c.lru[|c.lru| - 1]));
    }
  }

  lemma FrontDistinct(s: seq<Bubble>, b: Bubble)
    requires Distinct(s)
    ensures Distinct(MoveToFront(s, b))
  {
    WithoutDistinct(s, b);
    var t := Without(s, b);
    assert forall i :: 0 <= i < |t| ==> t[i] in t;
  }

  /** Recording a view keeps the structure, provided this recipient has no view of
      the bubble yet: a second one would leave the first key dangling. */
  lemma RecordValid(c: Cache, b: Bubble, recipient: Hex, id: Hex)
    requires Valid(c) && recipient !in ViewsOf(c, b)
    ensures Valid(Record(c, b, recipient, id))
  {
    FrontDistinct(c.lru, b);
    var c' := Record(c, b, recipient, id);
    var old_ := ViewsOf(c, b);
    var new_ := ViewsOf(c', b);
    assert new_[recipient] == id;
    forall x | x in old_.Values
      ensures x in new_.Values
    {
      var r :| r in old_ && old_[r] == x;
      assert new_[r] == x;
    }
    forall x | x in c'.index
      ensures c'.index[x] in c'.lru && x in ViewsOf(c', c'.index[x]).Values
    {
    }
  }

  lemma RegisterValid(c: Cache, b: Bubble, recipient: Hex, id: Hex, now: Time)
    requires Valid(c) && recipient !in ViewsOf(c, b)
    ensures Valid(RegisterView(c, b, recipient, id, now))
    ensures id != [] && c.maxSize > 0 ==> |RegisterView(c, b, recipient, id, now).index| <= c.maxSize
  {
    EvictValid(c, now);
    EvictFrame(c, now);
    RecordValid(EvictExpired(c, now), b, recipient, id);
    CapValid(Record(EvictExpired(c, now), b, recipient, id));
  }

  lemma {:induction false} EvictFrame(c: Cache, now: Time)
    ensures var c' := EvictExpired(c, now);
            c'.views == c.views && c'.expires == c.expires && c'.maxSize == c.maxSize
    decreases |c.lru|
  {
    if |c.lru| > 0 && now > ExpiryOf(c, c.lru[|c.lru| - 1]) {
      EvictFrame(RemoveBubble(c, c.lru[|c.lru| - 1]), now);
    }
  }

  lemma {:induction false} CapFrame(c: Cache)
    ensures var c' := EnforceCap(c);
            c'.views == c.views && c'.expires == c.expires && c'.maxSize == c.maxSize
    decreases |c.lru|
  {
    if !(c.maxSize == 0 || |c.index| <= c.maxSize || |c.lru| == 0) {
      CapFrame(RemoveBubble(c, c.lru[|c.lru| - 1]));
    }
  }

  lemma LookupValid(c: Cache, id: Hex, now: Time)
    requires Valid(c)
    ensures Valid(Lookup(c, id, now).0)
  {
    if id in c.index {
      RemoveValid(c, c.index[id]);
      FrontDistinct(c.lru, c.index[id]);
    }
  }

  lemma CreateValid(c: Cache, b: Bubble, x: Time)
    requires Valid(c) && b !in c.views
    ensures Valid(NewBubble(c, b, x))
  {
    var c' := NewBubble(c, b, x);
    assert forall y :: y != b ==> ViewsOf(c', y) == ViewsOf(c, y);
    assert ViewsOf(c, b) == map[];
  }

  /** Why one registration per recipient matters: registering a recipient again
      under another id leaves the first id indexed but no longer a view, so no later
      removal of the bubble can unlink it. */
  lemma ReRegisterStrands(c: Cache, b: Bubble, recipient: Hex, id: Hex)
    requires Valid(c) && recipient in ViewsOf(c, b)
    requires var first := ViewsOf(c, b)[recipient];
             && first != id && first in c.index && c.index[first] == b
             && (forall r :: r in ViewsOf(c, b) && ViewsOf(c, b)[r] == first ==> r == recipient)
    ensures var first := ViewsOf(c, b)[recipient];
            var c' := Record(c, b, recipient, id);
            && !Valid(c')
            && first in RemoveBubble(c', b).index && b !in RemoveBubble(c', b).lru
  {
    var first := ViewsOf(c, b)[recipient];
    var c' := Record(c, b, recipient, id);
    forall r | r in ViewsOf(c', b)
      ensures ViewsOf(c', b)[r] != first
    {
      assert r != recipient ==> ViewsOf(c', b)[r] == ViewsOf(c, b)[r];
    }
    assert first !in ViewsOf(c', b).Values;
    assert c'.index[first] == b;
  }

  /** Indexed, but no view of any bubble, so nothing that unlinks views can reach it. */
  predicate Stranded(c: Cache, id: Hex) {
    id in c.index && forall b :: b in c.views ==> id !in c.views[b].Values
  }

  lemma RemoveStrands(c: Cache, b: Bubble, id: Hex)
    requires Stranded(c, id)
    ensures Stranded(RemoveBubble(c, b), id)
  {
  }

  lemma {:induction false} EvictStrands(c: Cache, now: Time, id: Hex)
    requires Stranded(c, id)
    ensures Stranded(EvictExpired(c, now), id)
    decreases |c.lru|
  {
    if |c.lru| > 0 && now > ExpiryOf(c, c.lru[|c.lru| - 1]) {
      RemoveStrands(c, c.lru[|c.lru| - 1], id);
      EvictStrands(RemoveBubble(c, c.lru[|c.lru| - 1]), now, id);
    }
  }

  lemma {:induction false} CapStrands(c: Cache, id: Hex)
    requires Stranded(c, id)
    ensures Stranded(EnforceCap(c), id)
    decreases |c.lru|
  {
    hide EnforceCap, RemoveBubble, Stranded;
    if Capped(c) {
      CapDone(c);
    } else {
      CapMore(c);
      RemoveStrands(c, c.lru[|c.lru| - 1], id);
      CapStrands(RemoveBubble(c, c.lru[|c.lru| - 1]), id);
    }
  }

  /** One use of the cache, at some instant. */
  datatype Use =
    | Open(b: Bubble, expiresAt: Time)
    | Enter(b: Bubble, recipient: Hex, id: Hex, now: Time)
    | Ask(id: Hex, now: Time)

  function Using(c: Cache, u: Use): Cache {
    match u
    case Open(b, t) => NewBubble(c, b, t)
    case Enter(b, r, id, now) => RegisterView(c, b, r, id, now)
    case Ask(id, now) => Lookup(c, id, now).0
  }

  function UsedAll(c: Cache, us: seq<Use>): Cache {
    if |us| == 0 then c else Using(UsedAll(c, us[..|us| - 1]), us[|us| - 1])
  }

  lemma UseStrands(c: Cache, u: Use, id: Hex)
    requires Stranded(c, id) && !(u.Enter? && u.id == id)
    ensures Stranded(Using(c, u), id)
  {
    match u
    case Enter(b, r, x, now) =>
      EvictStrands(c, now, id);
      var c1 := EvictExpired(c, now);
      if x != [] {
        RecordStrands(c1, b, r, x, id);
        CapStrands(Record(c1, b, r, x), id);
      }
    case Ask(x, now) =>
      if x in c.index {
        RemoveStrands(c, c.index[x], id);
      }
    case Open(_, _) =>
  }

  lemma RecordStrands(c: Cache, b: Bubble, r: Hex, x: Hex, id: Hex)
    requires Stranded(c, id) && x != id
    ensures Stranded(Record(c, b, r, x), id)
  {
  }

  /** Stranding is for good: no later use of the cache, of any kind, at any time, removes the
      key, short of registering that very id again. */
  lemma {:induction false} StrandedForGood(c: Cache, us: seq<Use>, id: Hex)
    requires Stranded(c, id) && forall i :: 0 <= i < |us| && us[i].Enter? ==> us[i].id != id
    ensures Stranded(UsedAll(c, us), id)
  {
    if |us| > 0 {
      StrandedForGood(c, us[..|us| - 1], id);
      UseStrands(UsedAll(c, us[..|us| - 1]), us[|us| - 1], id);
    }
  }

  /** And this is how it starts: the pair is registered again under another id while its first
      id is indexed, its bubble unexpired, and nobody else has that id. */
  lemma SecondRegistrationStrands(c: Cache, b: Bubble, recipient: Hex, id: Hex, now: Time)
    requires Valid(c) && recipient in ViewsOf(c, b) && id != []
    requires var first := ViewsOf(c, b)[recipient];
             && first != id && first in c.index && c.index[first] == b && now <= ExpiryOf(c, b)
             && (forall x, r :: x in c.views && r in c.views[x] && c.views[x][r] == first ==> x == b && r == recipient)
    ensures Stranded(RegisterView(c, b, recipient, id, now), ViewsOf(c, b)[recipient])
  {
    hide EvictExpired, EnforceCap, Valid, ExpiryOf;
    var first := ViewsOf(c, b)[recipient];
    var c1 := EvictExpired(c, now);
    EvictFrame(c, now);
    ListedOnce(c);
    var n := EvictDropsExpiredTail(c, now);
    var tail := c.lru[|c.lru| - n..];
    forall i | 0 <= i < |tail|
      ensures tail[i] != b
    {
      assert tail[i] == c.lru[|c.lru| - n + i];
    }
    OnlyOwner(c, b, recipient, tail);
    SecondRecordStrands(c1, b, recipient, id, first);
    CapStrands(Record(c1, b, recipient, id), first);
  }

  lemma ListedOnce(c: Cache)
    requires Valid(c)
    ensures Distinct(c.lru)
  {
  }

  /** Nobody but its owner stands in the way of an id. */
  lemma OnlyOwner(c: Cache, b: Bubble, recipient: Hex, tail: seq<Bubble>)
    requires recipient in ViewsOf(c, b) && forall i :: 0 <= i < |tail| ==> tail[i] != b
    requires forall x, r :: x in c.views && r in c.views[x] && c.views[x][r] == ViewsOf(c, b)[recipient] ==>
             x == b && r == recipient
    ensures ViewsOf(c, b)[recipient] !in IdsOf(c, tail)
  {
    var first := ViewsOf(c, b)[recipient];
    forall i | 0 <= i < |tail|
      ensures first !in ViewsOf(c, tail[i]).Values
    {
      forall r | r in ViewsOf(c, tail[i])
        ensures ViewsOf(c, tail[i])[r] != first
      {
      }
    }
  }

  lemma SecondRecordStrands(c: Cache, b: Bubble, recipient: Hex, id: Hex, first: Hex)
    requires first != id && first in c.index
    requires forall x, r :: x in c.views && r in c.views[x] && c.views[x][r] == first ==> x == b && r == recipient
    ensures Stranded(Record(c, b, recipient, id), first)
  {
    var c' := Record(c, b, recipient, id);
    forall x | x in c'.views
      ensures first !in c'.views[x].Values
    {
      forall r | r in c'.views[x]
        ensures c'.views[x][r] != first
      {
      }
    }
  }

  // ---- What an eviction drops ----------------------------------------------

  /** Every id that is a view of one of these bubbles. */
  function IdsOf(c: Cache, bs: seq<Bubble>): set<Hex> {
    set i, id | 0 <= i < |bs| && id in ViewsOf(c, bs[i]).Values :: id
  }

  /** The cache with its `n` least recently touched bubbles gone: the list loses
      its tail, the index every id of a dropped bubble. */
  function DropOldest(c: Cache, n: nat): Cache
    requires n <= |c.lru|
  {
    c.(lru := c.lru[..|c.lru| - n], index := c.index - IdsOf(c, c.lru[|c.lru| - n..]))
  }

  lemma IdsOfMore(c: Cache, b: Bubble, tail: seq<Bubble>)
    ensures IdsOf(c, [b] + tail) == ViewsOf(c, b).Values + IdsOf(c, tail)
  {
    var all := [b] + tail;
    assert all[0] == b && forall i :: 0 <= i < |tail| ==> all[i + 1] == tail[i];
  }

  lemma DropOneMore(c: Cache, n: nat)
    requires Distinct(c.lru) && n < |c.lru|
    ensures RemoveBubble(DropOldest(c, n), c.lru[|c.lru| - n - 1]) == DropOldest(c, n + 1)
  {
    hide IdsOf;
    var k := |c.lru| - n - 1;
    var b := c.lru[k];
    WithoutLast(c.lru[..k + 1]);
    assert c.lru[..k + 1][..k] == c.lru[..k];
    var tail := c.lru[k + 1..];
    assert c.lru[k..] == [b] + tail;
    IdsOfMore(c, b, tail);
  }

  lemma DropNone(c: Cache)
    ensures DropOldest(c, 0) == c
  {
  }

  lemma CapStep(c: Cache, n: nat)
    requires Distinct(c.lru) && n < |c.lru| && c.maxSize > 0 && SizeAfter(c, n) > c.maxSize
    ensures EnforceCap(DropOldest(c, n)) == EnforceCap(DropOldest(c, n + 1))
  {
    DropOneMore(c, n);
  }

  lemma EvictStep(c: Cache, now: Time, n: nat)
    requires Distinct(c.lru) && n < |c.lru| && now > ExpiryOf(c, c.lru[|c.lru| - n - 1])
    ensures EvictExpired(DropOldest(c, n), now) == EvictExpired(DropOldest(c, n + 1), now)
  {
    DropOneMore(c, n);
  }

  lemma DropValid(c: Cache, n: nat)
    requires Distinct(c.lru) && n < |c.lru| && Valid(DropOldest(c, n))
    ensures Valid(DropOldest(c, n + 1))
  {
    DropOneMore(c, n);
    RemoveValid(DropOldest(c, n), c.lru[|c.lru| - n - 1]);
  }

  function SizeAfter(c: Cache, n: nat): nat
    requires n <= |c.lru|
  {
    |DropOldest(c, n).index|
  }

  lemma CapStop(c: Cache, n: nat)
    requires n <= |c.lru| && Valid(DropOldest(c, n)) && (SizeAfter(c, n) <= c.maxSize || n == |c.lru|)
    ensures EnforceCap(DropOldest(c, n)) == DropOldest(c, n) && SizeAfter(c, n) <= c.maxSize
  {
    if n == |c.lru| {
      EmptyListEmptyIndex(DropOldest(c, n));
    }
  }

  lemma {:induction false} CapFrom(c: Cache, m: nat) returns (n: nat)
    requires Distinct(c.lru) && m <= |c.lru| && c.maxSize > 0
    requires forall i: nat :: i < m ==> SizeAfter(c, i) > c.maxSize
    requires Valid(DropOldest(c, m))
    ensures n <= |c.lru| && EnforceCap(DropOldest(c, m)) == DropOldest(c, n)
    ensures SizeAfter(c, n) <= c.maxSize
    ensures forall i: nat :: i < n ==> SizeAfter(c, i) > c.maxSize
    decreases |c.lru| - m
  {
    hide EnforceCap, DropOldest, SizeAfter, Valid, Distinct;
    if SizeAfter(c, m) <= c.maxSize || m == |c.lru| {
      CapStop(c, m);
      n := m;
    } else {
      CapStep(c, m);
      DropValid(c, m);
      n := CapFrom(c, m + 1);
    }
  }

  /** The cap evicts the shortest tail of the touch order that makes the index fit. */
  lemma CapDropsShortestTail(c: Cache) returns (n: nat)
    requires Valid(c)
    ensures n <= |c.lru| && EnforceCap(c) == DropOldest(c, n)
    ensures c.maxSize == 0 ==> n == 0
    ensures c.maxSize > 0 ==> SizeAfter(c, n) <= c.maxSize
    ensures forall i: nat :: i < n ==> SizeAfter(c, i) > c.maxSize
  {
    DropNone(c);
    if c.maxSize == 0 {
      n := 0;
    } else {
      n := CapFrom(c, 0);
    }
  }

  lemma {:induction false} EvictFrom(c: Cache, now: Time, m: nat) returns (n: nat)
    requires Distinct(c.lru) && m <= |c.lru|
    requires forall i :: |c.lru| - m <= i < |c.lru| ==> now > ExpiryOf(c, c.lru[i])
    ensures m <= n <= |c.lru| && EvictExpired(DropOldest(c, m), now) == DropOldest(c, n)
    ensures forall i :: |c.lru| - n <= i < |c.lru| ==> now > ExpiryOf(c, c.lru[i])
    ensures n < |c.lru| ==> now <= ExpiryOf(c, c.lru[|c.lru| - n - 1])
    decreases |c.lru| - m
  {
    var d := DropOldest(c, m);
    if m == |c.lru| || now <= ExpiryOf(c, c.lru[|c.lru| - m - 1]) {
      n := m;
    } else {
      EvictStep(c, now, m);
      n := EvictFrom(c, now, m + 1);
    }
  }

  /** The expiry sweep drops a tail of expired bubbles and stops at the first survivor. */
  lemma EvictDropsExpiredTail(c: Cache, now: Time) returns (n: nat)
    requires Distinct(c.lru)
    ensures n <= |c.lru| && EvictExpired(c, now) == DropOldest(c, n)
    ensures forall i :: |c.lru| - n <= i < |c.lru| ==> now > ExpiryOf(c, c.lru[i])
    ensures n < |c.lru| ==> now <= ExpiryOf(c, c.lru[|c.lru| - n - 1])
  {
    DropNone(c);
    n := EvictFrom(c, now, 0);
  }

  /** The cap never takes the id just recorded, as long as it is that bubble's only view and
      nobody else's: everything older goes first. */
  lemma NewestSurvives(c: Cache, b: Bubble, id: Hex)
    requires Valid(c) && |c.lru| > 0 && c.lru[0] == b && id in c.index && c.index[id] == b
    requires ViewsOf(c, b).Values == {id} && forall x :: x in c.views && x != b ==> id !in c.views[x].Values
    ensures id in EnforceCap(c).index && EnforceCap(c).index[id] == b
  {
    hide EnforceCap, Valid;
    var n := CapDropsShortestTail(c);
    ListedOnce(c);
    if n == |c.lru| {
      OnlyNewest(c, b, id);
    } else {
      TailOthers(c, b, id, n);
    }
  }

  lemma TailOthers(c: Cache, b: Bubble, id: Hex, n: nat)
    requires Distinct(c.lru) && n < |c.lru| && c.lru[0] == b
    requires forall x :: x in c.views && x != b ==> id !in c.views[x].Values
    ensures id !in IdsOf(c, c.lru[|c.lru| - n..])
  {
    var tail := c.lru[|c.lru| - n..];
    forall i | 0 <= i < |tail|
      ensures id !in ViewsOf(c, tail[i]).Values
    {
      assert tail[i] == c.lru[|c.lru| - n + i];
    }
  }

  /** With everything older gone there is one id left, which fits any cap. */
  lemma OnlyNewest(c: Cache, b: Bubble, id: Hex)
    requires Valid(c) && |c.lru| > 0 && c.lru[0] == b && ViewsOf(c, b).Values == {id}
    ensures SizeAfter(c, |c.lru| - 1) <= 1
  {
    var d := DropOldest(c, |c.lru| - 1);
    AllValid(c, |c.lru| - 1);
    assert d.lru == [b];
    assert d.index.Keys <= {id};
    SubsetSize(d.index.Keys, {id});
  }

  lemma {:induction false} AllValid(c: Cache, n: nat)
    requires Valid(c) && n <= |c.lru|
    ensures Valid(DropOldest(c, n))
  {
    if n == 0 {
      DropNone(c);
    } else {
      AllValid(c, n - 1);
      DropValid(c, n - 1);
    }
  }
}
