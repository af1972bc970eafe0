/** Rewriting an annotation for a recipient and rewriting the result back, over every
    run of the cache. */
module RoundTrip {
  import opened Prelude
  import opened Hex
  import opened Fields
  import opened Rewrite
  import M = IdMap
  import R = IdMapRuns

  /** Text that `hex.EncodeToString` produces from a non-empty hash. */
  predicate HexId(id: Bytes) { id != [] && Decode(id).Some? && Encode(Decode(id).value) == id }

  /** Every id the relay registers is `hex.EncodeToString` of a message id. */
  predicate HexRun(es: seq<R.Event>) {
    forall i :: 0 <= i < |es| && es[i].Register? ==> HexId(es[i].id)
  }

  lemma {:induction false} LedgerHex(ks: seq<R.Book>, es: seq<R.Event>, n: nat)
    requires R.Run(ks, es) && HexRun(es) && n < |ks|
    ensures forall id :: id in ks[n].ledger ==> HexId(id)
  {
    if n > 0 {
      LedgerHex(ks, es, n - 1);
      R.Step(ks, es, n - 1);
    }
  }

  /** What one cache state knows, a later one still knows. */
  predicate Grows(k: R.Book, k': R.Book) {
    && (k.clash ==> k'.clash)
    && (forall b, r :: b in k.cache.views && r in k.cache.views[b] ==>
          b in k'.cache.views && r in k'.cache.views[b] && k'.cache.views[b][r] == k.cache.views[b][r])
  }

  lemma GrowsOnce(k: R.Book, e: R.Event)
    requires R.Enabled(k, e)
    ensures Grows(k, R.Apply(k, e))
  {
    match e
    case Register(b, r, id) =>
      M.EvictFrame(k.cache, k.clock);
      M.CapFrame(R.Enrol(k, b, r, id).cache);
    case Look(id) =>
    case Create(_, _) =>
    case Tick(_) =>
  }

  lemma {:induction false} GrowsOver(ks: seq<R.Book>, es: seq<R.Event>, n: nat, m: nat)
    requires |ks| == |es| + 1 && R.Run(ks, es) && n <= m < |ks|
    ensures Grows(ks[n], ks[m])
  {
    hide R.Run, R.Apply;
    if n < m {
      GrowsOver(ks, es, n, m - 1);
      R.Step(ks, es, m - 1);
      GrowsOnce(ks[m - 1], es[m - 1]);
    }
  }

  /** Two moments of one run, the later one with every id still registered once. */
  ghost predicate Linked(k: R.Book, k': R.Book) {
    R.Inv(k) && R.Inv(k') && Grows(k, k') && !k'.clash && (forall id :: id in k.ledger ==> HexId(id))
  }

  lemma RunLinks(ks: seq<R.Book>, es: seq<R.Event>, n: nat, m: nat)
    requires R.Run(ks, es) && HexRun(es) && n <= m < |ks| && !ks[m].clash
    ensures Linked(ks[n], ks[m])
  {
    GrowsOver(ks, es, n, m);
    LedgerHex(ks, es, n);
    R.Reachable(ks, es, n);
    R.Reachable(ks, es, m);
  }

  /** A hit names its owner for good: B's view of the bubble, if it resolves at any
      later moment, resolves to the same bubble, where A's view is still the id that
      was looked up. */
  lemma SameBubbleLater(k: R.Book, k': R.Book, id: Bytes, b: M.Bubble, recipient: Bytes)
    requires Linked(k, k') && Hit(k.cache, id, k.clock) == Some(b)
    ensures id in k.ledger && HexId(id)
    ensures M.ViewFor(k.cache, b, k.ledger[id].1) == Some(id)
    ensures M.ViewFor(k'.cache, b, k.ledger[id].1) == Some(id)
    ensures M.ViewFor(k.cache, b, recipient).Some? ==>
              var view := M.ViewFor(k.cache, b, recipient).value;
              && HexId(view)
              && (Hit(k'.cache, view, k'.clock).Some? ==> Hit(k'.cache, view, k'.clock) == Some(b))
  {
    HitOwner(k, id);
    if M.ViewFor(k.cache, b, recipient).Some? {
      var view := M.ViewFor(k.cache, b, recipient).value;
      ViewOwner(k, b, recipient);
      ViewOwner(k', b, recipient);
      if Hit(k'.cache, view, k'.clock).Some? {
        HitOwner(k', view);
      }
    }
  }

  lemma HitOwner(k: R.Book, id: Bytes)
    requires R.Inv(k) && Hit(k.cache, id, k.clock).Some?
    ensures id in k.ledger && k.ledger[id].0 == Hit(k.cache, id, k.clock).value
    ensures M.ViewFor(k.cache, k.ledger[id].0, k.ledger[id].1) == Some(id)
  {
  }

  lemma ViewOwner(k: R.Book, b: M.Bubble, recipient: Bytes)
    requires R.Inv(k) && !k.clash && M.ViewFor(k.cache, b, recipient).Some?
    ensures var view := M.ViewFor(k.cache, b, recipient).value; view in k.ledger && k.ledger[view] == (b, recipient)
  {
  }

  // ---- Rewriting twice -----------------------------------------------------

  lemma RetargetTwice(v: Value, x: Bytes, y: Bytes)
    ensures Retarget(Retarget(v, x), y) == Retarget(v, y)
    ensures HasTarget(Retarget(v, x)) == HasTarget(v)
    ensures HasTarget(v) ==> DictTarget(Retarget(v, x)) == Some(x)
  {
    RetargetKeepsKeys(v, x);
    if HasTarget(v) {
      var k := Find(v.entries.Keys, TARGET).value;
      assert v.entries[k := Blob(x)][k := Blob(y)] == v.entries[k := Blob(y)];
    }
  }

  lemma RetargetedTwice(f: FieldMap, s: map<int, Option<Bytes>>, t: map<int, Option<Bytes>>)
    requires Bindable(f, s) && s.Keys <= t.Keys
    ensures Bindable(Retargeted(f, s), t) == Bindable(f, t)
    ensures Bindable(f, t) ==> Retargeted(Retargeted(f, s), t) == Retargeted(f, t)
  {
    hide Retarget, HasTarget, KeyAsInt;
    var g := Retargeted(f, s);
    forall k | k in f
      ensures Annotates(g, k, t) == Annotates(f, k, t)
      ensures Annotates(f, k, s) ==> Annotates(f, k, t)
      ensures Annotates(f, k, t) && t[KeyAsInt(k).value].Some? ==>
                Retarget(g[k], t[KeyAsInt(k).value].value) == Retarget(f[k], t[KeyAsInt(k).value].value)
    {
      if Annotates(f, k, s) {
        RetargetTwice(f[k], s[KeyAsInt(k).value].value,
                      if t[KeyAsInt(k).value].Some? then t[KeyAsInt(k).value].value else []);
      }
    }
  }

  lemma ReplyOutside(f: FieldMap, s: map<int, Option<Bytes>>)
    requires REPLY_TO !in s
    ensures var k := Find(f.Keys, REPLY_TO); k.Some? ==> Retargeted(f, s)[k.value] == f[k.value]
  {
  }

  /** Substituting the reply does not disturb the dictionary fields, and back. */
  lemma ReboundCommutes(f: FieldMap, r: Bytes, s: map<int, Option<Bytes>>)
    requires REPLY_TO !in s
    ensures Bindable(Rebound(f, Some(Some(r))), s) == Bindable(f, s)
    ensures Retargeted(Rebound(f, Some(Some(r))), s) == Rebound(Retargeted(f, s), Some(Some(r)))
  {
    hide Retarget, AsHash;
    var g := Rebound(f, Some(Some(r)));
    var h := Retargeted(f, s);
    ReplyOutside(f, s);
    assert g.Keys == f.Keys;
    forall x | x in f
      ensures Annotates(g, x, s) == Annotates(f, x, s)
      ensures Retargeted(g, s)[x] == Rebound(h, Some(Some(r)))[x]
    {
      ReboundAt(f, r, x);
      ReboundAt(h, r, x);
    }
    assert Retargeted(g, s).Keys == Rebound(h, Some(Some(r))).Keys;
  }

  lemma ReboundAt(f: FieldMap, r: Bytes, x: Key)
    requires x in f
    ensures var g := Rebound(f, Some(Some(r)));
            g.Keys == f.Keys && g[x] == if ReplyHex(f).Some?
              && Find(f.Keys, REPLY_TO) == Some(x) then Plain(Blob(r)) else f[x]
  {
  }

  lemma ReboundTwice(f: FieldMap, r: Bytes, q: Option<Bytes>)
    ensures Rebound(Rebound(f, Some(Some(r))), Some(q)) == Rebound(f, Some(q))
  {
    var k := Find(f.Keys, REPLY_TO);
    var g := Rebound(f, Some(Some(r)));
    assert g.Keys == f.Keys;
    if k.Some? && f[k.value].Plain? && AsHash(f[k.value].leaf).Some? {
      assert f[k.value := Plain(Blob(r))] - {k.value} == f - {k.value};
    }
  }

  /** A rewrite forgets what an earlier rewrite wrote in the fields it covers. */
  lemma RewriteAbsorbs(f: FieldMap, s: Sight, t: Sight)
    requires Rewritten(f, s).Some? && s.dicts.Keys <= t.dicts.Keys && REPLY_TO !in t.dicts
    requires (s.reply.Some? ==> t.reply.Some?) && s.reply != Some(None)
    ensures Rewritten(Rewritten(f, s).value, t) == Rewritten(f, t)
  {
    var g := Retargeted(f, s.dicts);
    RetargetedTwice(f, s.dicts, t.dicts);
    if s.reply.Some? {
      var r := s.reply.value.value;
      ReboundCommutes(g, r, t.dicts);
      ReboundTwice(Retargeted(g, t.dicts), r, t.reply.value);
    }
  }

  // ---- What a rewritten map points at --------------------------------------

  lemma DictRewritten(f: FieldMap, s: Sight, n: int)
    requires Rewritten(f, s).Some? && s.reply != Some(None)
    requires n in s.dicts && n != REPLY_TO && REPLY_TO !in s.dicts && TargetKey(f, n).Some?
    ensures s.dicts[n].Some? && TargetHex(Rewritten(f, s).value, n) == Some(Encode(s.dicts[n].value))
    ensures Rewritten(f, s).value[TargetKey(f, n).value] == Retarget(f[TargetKey(f, n).value], s.dicts[n].value)
  {
    var g := Retargeted(f, s.dicts);
    var k := TargetKey(f, n).value;
    assert Annotates(f, k, s.dicts);
    RetargetTwice(f[k], s.dicts[n].value, []);
    var h := Rebound(g, s.reply);
    assert h.Keys == f.Keys;
    assert h[k] == g[k];
  }

  lemma ReplyRewritten(f: FieldMap, s: Sight)
    requires Rewritten(f, s).Some? && s.reply.Some? && s.reply.value.Some? && REPLY_TO !in s.dicts && ReplyHex(f).Some?
    ensures ReplyHex(Rewritten(f, s).value) == Some(Encode(s.reply.value.value))
  {
    ReplyOutside(f, s.dicts);
    var g := Retargeted(f, s.dicts);
    assert Rebound(g, s.reply).Keys == f.Keys;
  }

  // ---- The round trip ------------------------------------------------------

  ghost function PlanAt(k: R.Book, f: FieldMap): Plan { Resolve(k.cache, k.clock, f) }

  /** What `buildRewrite` and its closure make of a message for one member. */
  ghost function Sent(k: R.Book, f: FieldMap, member: Bytes): Option<FieldMap> {
    Rewritten(f, SightOf(PlanAt(k, f), k.cache, member))
  }

  /** Every resolved annotation of this map is one of this member's own views. */
  ghost predicate Mine(k: R.Book, f: FieldMap, member: Bytes) {
    && (forall n :: n in PlanAt(k, f).dicts ==> Owner(k, TargetHex(f, n)) == Some(member))
    && (PlanAt(k, f).reply.Some? ==> Owner(k, ReplyHex(f)) == Some(member))
  }

  function Owner(k: R.Book, id: Option<Bytes>): Option<Bytes> {
    if id.Some? && id.value in k.ledger then Some(k.ledger[id.value].1) else None
  }

  lemma PlanEntry(k: R.Book, f: FieldMap, n: int)
    requires n in PlanAt(k, f).dicts
    ensures IsDict(n) && TargetKey(f, n).Some? && TargetHex(f, n).Some? && TargetHex(f, n).value != []
    ensures Hit(k.cache, TargetHex(f, n).value, k.clock) == Some(PlanAt(k, f).dicts[n])
  {
  }

  lemma PlanHit(k: R.Book, f: FieldMap, n: int, id: Bytes)
    requires n in PlanAt(k, f).dicts && TargetHex(f, n) == Some(id)
    ensures Hit(k.cache, id, k.clock) == Some(PlanAt(k, f).dicts[n])
  {
  }

  /** Every resolved target reads the same for the member at both moments. */
  predicate SameEyes(p: Plan, c: M.Cache, q: Plan, c': M.Cache, member: Bytes) {
    && q.dicts.Keys == p.dicts.Keys && q.reply.Some? == p.reply.Some?
    && (forall n :: n in p.dicts ==> RawView(c', q.dicts[n], member) == RawView(c, p.dicts[n], member))
    && (p.reply.Some? ==> RawView(c', q.reply.value, member) == RawView(c, p.reply.value, member))
  }

  lemma SightsEqual(p: Plan, c: M.Cache, q: Plan, c': M.Cache, member: Bytes)
    requires SameEyes(p, c, q, c', member)
    ensures SightOf(q, c', member) == SightOf(p, c, member)
  {
    forall n | n in p.dicts
      ensures Sighted(q.dicts, c', member)[n] == Sighted(p.dicts, c, member)[n]
    {
    }
    assert Sighted(q.dicts, c', member).Keys == Sighted(p.dicts, c, member).Keys;
    assert Sighted(q.dicts, c', member) == Sighted(p.dicts, c, member);
  }

  /** One dictionary field, there and back. */
  lemma DictReturns(k: R.Book, k': R.Book, f: FieldMap, g: FieldMap, a: Bytes, b: Bytes, n: int)
    requires Linked(k, k') && Mine(k, f, a) && Sent(k, f, b) == Some(g)
    requires SightOf(PlanAt(k, f), k.cache, b).reply != Some(None)
    requires n in PlanAt(k, f).dicts && n in PlanAt(k', g).dicts
    ensures PlanAt(k', g).dicts[n] == PlanAt(k, f).dicts[n]
    ensures RawView(k'.cache, PlanAt(k, f).dicts[n], a) == RawView(k.cache, PlanAt(k, f).dicts[n], a)
  {
    PlanEntry(k, f, n);
    var bubble := PlanAt(k, f).dicts[n];
    SameBubbleLater(k, k', TargetHex(f, n).value, bubble, b);
    var s := SightOf(PlanAt(k, f), k.cache, b);
    PlanNames(k, f);
    DictRewritten(f, s, n);
    PlanHit(k', g, n, M.ViewFor(k.cache, bubble, b).value);
  }

  lemma PlanNames(k: R.Book, f: FieldMap)
    ensures REPLY_TO !in PlanAt(k, f).dicts
  {
  }

  lemma ReplyReturns(k: R.Book, k': R.Book, f: FieldMap, g: FieldMap, a: Bytes, b: Bytes)
    requires Linked(k, k') && Mine(k, f, a) && Sent(k, f, b) == Some(g)
    requires SightOf(PlanAt(k, f), k.cache, b).reply != Some(None)
    requires PlanAt(k, f).reply.Some? && PlanAt(k', g).reply.Some?
    ensures PlanAt(k', g).reply == PlanAt(k, f).reply
    ensures RawView(k'.cache, PlanAt(k, f).reply.value, a) == RawView(k.cache, PlanAt(k, f).reply.value, a)
  {
    SameBubbleLater(k, k', ReplyHex(f).value, PlanAt(k, f).reply.value, b);
    PlanNames(k, f);
    ReplyRewritten(f, SightOf(PlanAt(k, f), k.cache, b));
  }

  /** Whatever carrier A used, B's copy of the field points at B's own view of the
      bubble that A's target resolved to, and differs in nothing else. */
  lemma TargetBecomesTheirs(k: R.Book, f: FieldMap, g: FieldMap, n: int, b: Bytes)
    requires Canonical(f) && Sent(k, f, b) == Some(g) && n in PlanAt(k, f).dicts
    ensures var raw := RawView(k.cache, PlanAt(k, f).dicts[n], b);
            && raw.Some? && TargetKey(f, n).Some?
            && var x := TargetKey(f, n).value;
            && x in g && DictTarget(g[x]) == raw && g[x] == Retarget(f[x], raw.value)
  {
    hide Resolve, Rebound, Canonical, Retarget;
    PlanEntry(k, f, n);
    var s := SightOf(PlanAt(k, f), k.cache, b);
    var x := TargetKey(f, n).value;
    assert Annotates(f, x, s.dicts);
    RetargetTwice(f[x], s.dicts[n].value, []);
    ReboundElsewhere(Retargeted(f, s.dicts), s.reply, x);
  }

  lemma ReboundElsewhere(f: FieldMap, reply: Option<Option<Bytes>>, x: Key)
    requires x in f && KeyAsInt(x) != Some(REPLY_TO)
    ensures x in Rebound(f, reply) && Rebound(f, reply)[x] == f[x]
  {
  }

  lemma SameEyesLater(k: R.Book, k': R.Book, f: FieldMap, g: FieldMap, a: Bytes, b: Bytes)
    requires Linked(k, k') && Mine(k, f, a) && Sent(k, f, b) == Some(g)
    requires SightOf(PlanAt(k, f), k.cache, b).reply != Some(None)
    requires PlanAt(k', g).dicts.Keys == PlanAt(k, f).dicts.Keys
             && PlanAt(k', g).reply.Some? == PlanAt(k, f).reply.Some?
    ensures SameEyes(PlanAt(k, f), k.cache, PlanAt(k', g), k'.cache, a)
  {
    forall n | n in PlanAt(k, f).dicts
      ensures RawView(k'.cache, PlanAt(k', g).dicts[n], a) == RawView(k.cache, PlanAt(k, f).dicts[n], a)
    {
      DictReturns(k, k', f, g, a, b, n);
    }
    if PlanAt(k, f).reply.Some? {
      ReplyReturns(k, k', f, g, a, b);
    }
  }

  /** In every run: rewrite A's annotations for B at one moment. At any later moment at which
      they all still resolve, rewriting the result for A gives what rewriting A's own message
      then would, as if B had never come between; and when nothing further resolves, what it
      would have given in the first place. */
  lemma ThereAndBack(ks: seq<R.Book>, es: seq<R.Event>, i: nat, j: nat, f: FieldMap, g: FieldMap, a: Bytes, b: Bytes)
    requires R.Run(ks, es) && HexRun(es) && i <= j < |ks| && !ks[j].clash
    requires Mine(ks[i], f, a) && Sent(ks[i], f, b) == Some(g)
    requires SightOf(PlanAt(ks[i], f), ks[i].cache, b).reply != Some(None)
    requires PlanAt(ks[i], f).dicts.Keys <= PlanAt(ks[j], g).dicts.Keys
    requires PlanAt(ks[i], f).reply.Some? ==> PlanAt(ks[j], g).reply.Some?
    ensures Sent(ks[j], g, a) == Rewritten(f, SightOf(PlanAt(ks[j], g), ks[j].cache, a))
    ensures forall n :: n in PlanAt(ks[i], f).dicts ==> PlanAt(ks[j], g).dicts[n] == PlanAt(ks[i], f).dicts[n]
    ensures PlanAt(ks[i], f).reply.Some? ==> PlanAt(ks[j], g).reply == PlanAt(ks[i], f).reply
    ensures PlanAt(ks[j], g).dicts.Keys == PlanAt(ks[i], f).dicts.Keys
            && PlanAt(ks[j], g).reply.Some? == PlanAt(ks[i], f).reply.Some? ==>
              Sent(ks[j], g, a) == Sent(ks[i], f, a)
  {
    hide R.Run, HexRun, Mine, Linked, Resolve, Rewritten;
    PlanNames(ks[j], g);
    RunLinks(ks, es, i, j);
    forall n | n in PlanAt(ks[i], f).dicts
      ensures PlanAt(ks[j], g).dicts[n] == PlanAt(ks[i], f).dicts[n]
    {
      DictReturns(ks[i], ks[j], f, g, a, b, n);
    }
    if PlanAt(ks[i], f).reply.Some? {
      ReplyReturns(ks[i], ks[j], f, g, a, b);
    }
    RewriteAbsorbs(f, SightOf(PlanAt(ks[i], f), ks[i].cache, b), SightOf(PlanAt(ks[j], g), ks[j].cache, a));
    if PlanAt(ks[j], g).dicts.Keys == PlanAt(ks[i], f).dicts.Keys
       && PlanAt(ks[j], g).reply.Some? == PlanAt(ks[i], f).reply.Some? {
      SameEyesLater(ks[i], ks[j], f, g, a, b);
      SightsEqual(PlanAt(ks[i], f), ks[i].cache, PlanAt(ks[j], g), ks[j].cache, a);
    }
  }

  /** Are the resolved targets already carried as raw bytes? */
  ghost predicate Binary(p: Plan, f: FieldMap) {
    && (forall n :: n in p.dicts ==> TargetKey(f, n).Some? && TargetLeaf(f[TargetKey(f, n).value]).Blob?)
    && (p.reply.Some? ==> ReplyLeaf(f).Some? && ReplyLeaf(f).value.Blob?)
  }

  ghost function TargetLeaf(v: Value): Leaf
    requires HasTarget(v)
  {
    v.entries[Find(v.entries.Keys, TARGET).value]
  }

  ghost function ReplyLeaf(f: FieldMap): Option<Leaf> {
    var k := Find(f.Keys, REPLY_TO);
    if k.Some? && f[k.value].Plain? then Some(f[k.value].leaf) else None
  }

  lemma RetargetSame(v: Value, raw: Bytes)
    requires HasTarget(v) && TargetLeaf(v) == Blob(raw)
    ensures Retarget(v, raw) == v && DictTarget(v) == Some(raw)
  {
  }

  lemma OwnField(k: R.Book, f: FieldMap, a: Bytes, n: int)
    requires Mine(k, f, a) && R.Inv(k) && n in PlanAt(k, f).dicts && Binary(PlanAt(k, f), f)
    ensures var raw := RawView(k.cache, PlanAt(k, f).dicts[n], a);
            raw.Some? && TargetKey(f, n).Some?
              && Retarget(f[TargetKey(f, n).value], raw.value) == f[TargetKey(f, n).value]
  {
    PlanEntry(k, f, n);
    var v := f[TargetKey(f, n).value];
    RetargetSame(v, TargetLeaf(v).bytes);
    DecodeEncode(TargetLeaf(v).bytes);
    assert TargetHex(f, n) == Some(Encode(TargetLeaf(v).bytes));
  }

  lemma OwnReply(k: R.Book, f: FieldMap, a: Bytes)
    requires Mine(k, f, a) && R.Inv(k) && PlanAt(k, f).reply.Some? && Binary(PlanAt(k, f), f)
    ensures Rebound(f, SightOf(PlanAt(k, f), k.cache, a).reply) == f
  {
    var x := Find(f.Keys, REPLY_TO).value;
    DecodeEncode(f[x].leaf.bytes);
    assert f[x := f[x]] == f;
  }

  lemma OwnFields(k: R.Book, f: FieldMap, a: Bytes)
    requires Mine(k, f, a) && R.Inv(k) && Binary(PlanAt(k, f), f) && Canonical(f)
    ensures var s := SightOf(PlanAt(k, f), k.cache, a);
            Bindable(f, s.dicts) && Retargeted(f, s.dicts) == f
  {
    hide Retarget, HasTarget, KeyAsInt, Resolve, RawView;
    var s := SightOf(PlanAt(k, f), k.cache, a);
    forall x | x in f && Annotates(f, x, s.dicts)
      ensures s.dicts[KeyAsInt(x).value].Some? && Retarget(f[x], s.dicts[KeyAsInt(x).value].value) == f[x]
    {
      FindUnique(f.Keys, KeyAsInt(x).value, x);
      OwnField(k, f, a, KeyAsInt(x).value);
    }
    assert Retargeted(f, s.dicts) == f;
  }

  /** "What A's own message says": rewriting A's annotations for A only turns text
      carriers into bytes, so a message that carries bytes comes back identical. */
  lemma OwnRewriteIsIdentity(ks: seq<R.Book>, es: seq<R.Event>, i: nat, f: FieldMap, a: Bytes)
    requires R.Run(ks, es) && i < |ks| && Canonical(f) && Mine(ks[i], f, a) && Binary(PlanAt(ks[i], f), f)
    ensures Sent(ks[i], f, a) == Some(f)
  {
    R.Reachable(ks, es, i);
    OwnFields(ks[i], f, a);
    if PlanAt(ks[i], f).reply.Some? {
      OwnReply(ks[i], f, a);
    }
  }

  /** Fields the plan does not name pass through untouched: unresolved annotations,
      attachments, quotes, and everything inside a dictionary except its target. */
  lemma OthersUntouched(f: FieldMap, s: Sight, k: Key)
    requires Canonical(f) && Rewritten(f, s).Some? && k in f
    requires KeyAsInt(k).Some? ==> KeyAsInt(k).value !in s.dicts && (KeyAsInt(k).value == REPLY_TO ==> s.reply.None?)
    ensures k in Rewritten(f, s).value && Rewritten(f, s).value[k] == f[k]
  {
    assert Retargeted(f, s.dicts)[k] == f[k];
  }

  lemma BindableExactly(f: FieldMap, dicts: map<int, Option<Bytes>>)
    requires Canonical(f) && forall n :: n in dicts ==> TargetKey(f, n).Some?
    ensures Bindable(f, dicts) <==> forall n :: n in dicts ==> dicts[n].Some?
  {
    forall n | n in dicts
      ensures Annotates(f, TargetKey(f, n).value, dicts) && KeyAsInt(TargetKey(f, n).value) == Some(n)
    {
    }
  }

  /** A skipped recipient is exactly one that lacks a view of some resolved reaction,
      comment or continuation target when the closure reaches it. */
  lemma SkippedExactly(k: R.Book, f: FieldMap, later: M.Cache, recipient: Bytes)
    requires Canonical(f)
    ensures Rewritten(f, SightOf(PlanAt(k, f), later, recipient)).Some? <==>
            forall n :: n in PlanAt(k, f).dicts ==> RawView(later, PlanAt(k, f).dicts[n], recipient).Some?
  {
    var p := PlanAt(k, f);
    var dicts := Sighted(p.dicts, later, recipient);
    forall n | n in dicts
      ensures TargetKey(f, n).Some?
    {
      PlanEntry(k, f, n);
    }
    BindableExactly(f, dicts);
    assert forall n :: n in p.dicts ==> dicts[n] == RawView(later, p.dicts[n], recipient);
  }
}
