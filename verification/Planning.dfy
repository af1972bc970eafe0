/** `buildRewrite` (internal/service/rewrite.go): the scan that finds which annotation
    fields of a message resolve, and to which bubbles. */
module Planning {
  import opened Prelude
  import opened Hex
  import opened Fields
  import opened Rewrite
  import opened RewriteHeap
  import M = IdMap
  import R = IdMapRuns
  import opened IdCache

  /** No id is a view of two bubbles. */
  predicate Solo(c: M.Cache) {
    forall b, r :: b in c.views && r in c.views[b] && c.views[b][r] in c.index ==> c.index[c.views[b][r]] == b
  }

  /** Every run that registers each id once keeps `Solo`. */
  lemma RunsAreSolo(k: R.Book)
    requires R.Inv(k) && !k.clash
    ensures M.Valid(k.cache) && Solo(k.cache)
  {
  }

  /** Lookups at one instant do not disturb each other. */
  ghost predicate SameHits(c: M.Cache, c': M.Cache, now: Time) {
    && c'.views == c.views && c'.expires == c.expires
    && (forall id :: Hit(c', id, now) == Hit(c, id, now))
  }

  lemma LookupKeepsHits(c: M.Cache, id: Bytes, now: Time)
    requires Solo(c)
    ensures Solo(M.Lookup(c, id, now).0) && SameHits(c, M.Lookup(c, id, now).0, now)
  {
    var c' := M.Lookup(c, id, now).0;
    forall x
      ensures Hit(c', x, now) == Hit(c, x, now)
    {
      if x in c.index && x !in c'.index {
        var b := c.index[id];
        var r :| r in M.ViewsOf(c, b) && M.ViewsOf(c, b)[r] == x;
        assert c.index[x] == b;
      }
    }
  }

  ghost predicate At(f: FieldMap, n: int, done: set<Key>) {
    Find(f.Keys, n).Some? && Find(f.Keys, n).value in done
  }

  /** The part of a plan that concerns the keys scanned so far. */
  ghost function PlanOver(p: Plan, f: FieldMap, done: set<Key>): Plan {
    Plan(map n | n in p.dicts && At(f, n, done) :: p.dicts[n], if At(f, REPLY_TO, done) then p.reply else None)
  }

  lemma PlanComplete(c: M.Cache, now: Time, f: FieldMap)
    ensures var p := Resolve(c, now, f);
            PlanOver(p, f, f.Keys) == p && PlanOver(p, f, {}) == Plan(map[], None)
  {
    var p := Resolve(c, now, f);
    assert forall n :: n in p.dicts ==> DictHit(c, now, f, n).Some?;
    assert PlanOver(p, f, f.Keys).dicts == p.dicts;
  }

  /** The scan's body for one key. */
  ghost function Scanned(c: M.Cache, now: Time, v: Value, n: Option<int>, p: Plan): Plan {
    if n.None? then p
    else if IsDict(n.value) then
      var t := DictTarget(v);
      if t.None? || t.value == [] || Hit(c, Encode(t.value), now).None? then p
      else p.(dicts := p.dicts[n.value := Hit(c, Encode(t.value), now).value])
    else if n.value == REPLY_TO && v.Plain? && AsHash(v.leaf).Some? then
      var hit := Hit(c, Encode(AsHash(v.leaf).value), now);
      if hit.Some? then p.(reply := hit) else p
    else p
  }

  lemma AtOneMore(f: FieldMap, done: set<Key>, k: Key, n: int)
    requires OneKeyEach(f.Keys) && k in f && k !in done
    ensures At(f, n, done + {k}) <==> At(f, n, done) || KeyAsInt(k) == Some(n)
    ensures KeyAsInt(k) == Some(n) ==> Find(f.Keys, n) == Some(k) && !At(f, n, done)
  {
    if KeyAsInt(k) == Some(n) {
      FindUnique(f.Keys, n, k);
    }
  }

  lemma PlanOneMore(p: Plan, f: FieldMap, done: set<Key>, k: Key)
    requires OneKeyEach(f.Keys) && k in f && k !in done && REPLY_TO !in p.dicts
    ensures var n := KeyAsInt(k);
            var q := PlanOver(p, f, done);
            PlanOver(p, f, done + {k}) ==
              if n.Some? && n.value in p.dicts then q.(dicts := q.dicts[n.value := p.dicts[n.value]])
              else if n == Some(REPLY_TO) then q.(reply := p.reply)
              else q
  {
    forall n | n in p.dicts || n == REPLY_TO
      ensures At(f, n, done + {k}) <==> At(f, n, done) || KeyAsInt(k) == Some(n)
    {
      AtOneMore(f, done, k, n);
    }
    var n := KeyAsInt(k);
    var q := PlanOver(p, f, done);
    var more := PlanOver(p, f, done + {k});
    if n.Some? && n.value in p.dicts {
      assert more.dicts == q.dicts[n.value := p.dicts[n.value]];
    } else {
      assert more.dicts == q.dicts;
    }
  }

  lemma DictHitAt(c: M.Cache, now: Time, f: FieldMap, k: Key, n: int)
    requires Find(f.Keys, n) == Some(k)
    ensures DictHit(c, now, f, n) ==
            var t := DictTarget(f[k]);
            if t.None? || t.value == [] then None else Hit(c, Encode(t.value), now)
  {
  }

  lemma ResolveEntry(c: M.Cache, now: Time, f: FieldMap, n: int)
    ensures n in Resolve(c, now, f).dicts <==> IsDict(n) && DictHit(c, now, f, n).Some?
    ensures n in Resolve(c, now, f).dicts ==> Resolve(c, now, f).dicts[n] == DictHit(c, now, f, n).value
  {
  }

  lemma ScanStep(c: M.Cache, now: Time, f: FieldMap, done: set<Key>, k: Key)
    requires OneKeyEach(f.Keys) && k in f && k !in done
    ensures var p := Resolve(c, now, f);
            PlanOver(p, f, done + {k}) == Scanned(c, now, f[k], KeyAsInt(k), PlanOver(p, f, done))
  {
    ResolveEntry(c, now, f, REPLY_TO);
    PlanOneMore(Resolve(c, now, f), f, done, k);
    if KeyAsInt(k).Some? {
      var n := KeyAsInt(k).value;
      AtOneMore(f, done, k, n);
      ResolveEntry(c, now, f, n);
      DictHitAt(c, now, f, k, n);
    }
  }

  /** `extractDictTarget`: the empty string stands for "no target". */
  method ExtractDictTarget(c: Cell) returns (hex: Bytes)
    requires c.Ref? ==> OneKeyEach(c.d.m.Keys)
    ensures hex == var t := DictTarget(CellValue(c)); if t.None? then [] else Encode(t.value)
  {
    if c.Flat? {
      return [];
    }
    var k := FindKey(c.d.m.Keys, TARGET);
    if k.None? {
      return [];
    }
    var t := AsHash(c.d.m[k.value]);
    return if t.None? then [] else Encode(t.value);
  }

  method LookupSafely(cache: IdCache, id: Bytes, now: Time) returns (hit: Option<M.Bubble>)
    requires M.Valid(cache.Model()) && Solo(cache.Model())
    modifies cache`byMsgId, cache`lru
    ensures M.Valid(cache.Model()) && Solo(cache.Model()) && SameHits(old(cache.Model()), cache.Model(), now)
    ensures hit == Hit(old(cache.Model()), id, now)
  {
    LookupKeepsHits(cache.Model(), id, now);
    hit := cache.Lookup(id, now);
  }

  method ScanField(k: Key, v: Cell, p: Plan, cache: IdCache, now: Time) returns (q: Plan)
    requires v.Ref? ==> OneKeyEach(v.d.m.Keys)
    requires M.Valid(cache.Model()) && Solo(cache.Model())
    modifies cache`byMsgId, cache`lru
    ensures M.Valid(cache.Model()) && Solo(cache.Model()) && SameHits(old(cache.Model()), cache.Model(), now)
    ensures q == Scanned(old(cache.Model()), now, old(CellValue(v)), KeyAsInt(k), p)
  {
    q := p;
    var n := KeyAsInt(k);
    if n.None? {
      return;
    }
    if IsDict(n.value) {
      var hex := ExtractDictTarget(v);
      if hex == [] {
        return;
      }
      var hit := LookupSafely(cache, hex, now);
      if hit.Some? {
        q := p.(dicts := p.dicts[n.value := hit.value]);
      }
    } else if n.value == REPLY_TO {
      var raw := AsHashCell(v);
      if raw.None? {
        return;
      }
      var hit := LookupSafely(cache, Encode(raw.value), now);
      if hit.Some? {
        q := p.(reply := hit);
      }
    }
  }

  lemma SameScan(c: M.Cache, c': M.Cache, now: Time, v: Value, n: Option<int>, p: Plan)
    requires SameHits(c, c', now)
    ensures Scanned(c', now, v, n, p) == Scanned(c, now, v, n, p)
  {
  }

  lemma SameHitsTrans(a: M.Cache, b: M.Cache, c: M.Cache, now: Time)
    requires SameHits(a, b, now) && SameHits(b, c, now)
    ensures SameHits(a, c, now)
  {
  }

  /** `buildRewrite`: the scan finds the same plan in whatever order it meets the keys,
      although each lookup touches the cache. */
  method BuildRewrite(t: FieldTable, cache: IdCache, now: Time) returns (p: Plan)
    requires Canonical(View(t)) && M.Valid(cache.Model()) && Solo(cache.Model())
    modifies cache`byMsgId, cache`lru
    ensures p == Resolve(old(cache.Model()), now, View(t))
    ensures M.Valid(cache.Model()) && Solo(cache.Model()) && SameHits(old(cache.Model()), cache.Model(), now)
  {
    ghost var f, c := View(t), cache.Model();
    PlanComplete(c, now, f);
    p := Plan(map[], None);
    var rest := t.m.Keys;
    assert t.m.Keys - rest == {};
    while rest != {}
      invariant rest <= t.m.Keys && View(t) == f
      invariant p == PlanOver(Resolve(c, now, f), f, f.Keys - rest)
      invariant M.Valid(cache.Model()) && Solo(cache.Model()) && SameHits(c, cache.Model(), now)
    {
      var k :| k in rest;
      ghost var before := cache.Model();
      assert f[k] == CellValue(t.m[k]);
      ScanStep(c, now, f, f.Keys - rest, k);
      SameScan(c, before, now, f[k], KeyAsInt(k), p);
      p := ScanField(k, t.m[k], p, cache, now);
      SameHitsTrans(c, before, cache.Model(), now);
      assert f.Keys - (rest - {k}) == f.Keys - rest + {k};
      rest := rest - {k};
    }
    assert f.Keys - rest == f.Keys;
  }

  /** This dictionary names this hash as its target: inner key 0, in any key type and carrier. */
  predicate NamesTarget(v: Value, raw: Bytes) {
    v.Table? && exists y :: y in v.entries && KeyAsInt(y) == Some(0) && AsHash(v.entries[y]) == Some(raw)
  }

  lemma TargetExactly(f: FieldMap, n: int, raw: Bytes)
    requires Canonical(f)
    ensures TargetHex(f, n) == Some(Encode(raw)) <==>
            exists x :: x in f && KeyAsInt(x) == Some(n) && NamesTarget(f[x], raw)
  {
    if x :| x in f && KeyAsInt(x) == Some(n) && NamesTarget(f[x], raw) {
      FindUnique(f.Keys, n, x);
      var y :| y in f[x].entries && KeyAsInt(y) == Some(0) && AsHash(f[x].entries[y]) == Some(raw);
      FindUnique(f[x].entries.Keys, 0, y);
    }
    if TargetHex(f, n) == Some(Encode(raw)) {
      var x := Find(f.Keys, n).value;
      EncodeInjective(DictTarget(f[x]).value, raw);
      assert NamesTarget(f[x], raw);
    }
  }

  /** Exactly which reactions (0x40), comments (0x41) and continuations (0x42) are planned, and
      for which bubble: those whose target hash the cache resolves. Nothing else is. */
  lemma PlannedExactly(c: M.Cache, now: Time, f: FieldMap, n: int, b: M.Bubble)
    requires Canonical(f)
    ensures n in Resolve(c, now, f).dicts ==> n == 0x40 || n == 0x41 || n == 0x42
    ensures n == 0x40 || n == 0x41 || n == 0x42 ==>
              ((n in Resolve(c, now, f).dicts && Resolve(c, now, f).dicts[n] == b) <==>
                exists raw :: raw != [] && M.Lookup(c, Encode(raw), now).1 == Some(b)
                  && exists x :: x in f && KeyAsInt(x) == Some(n) && NamesTarget(f[x], raw))
  {
    hide M.Lookup, NamesTarget, Canonical;
    ResolveEntry(c, now, f, n);
    forall raw
      ensures TargetHex(f, n) == Some(Encode(raw)) <==>
              exists x :: x in f && KeyAsInt(x) == Some(n) && NamesTarget(f[x], raw)
    {
      TargetExactly(f, n, raw);
    }
    if DictHit(c, now, f, n) == Some(b) {
      var raw := TargetOf(f, n);
      assert raw != [] && M.Lookup(c, Encode(raw), now).1 == Some(b);
    }
  }

  lemma TargetOf(f: FieldMap, n: int) returns (raw: Bytes)
    requires TargetHex(f, n).Some?
    ensures TargetHex(f, n) == Some(Encode(raw)) && (raw == [] <==> TargetHex(f, n).value == [])
  {
    raw := DictTarget(f[Find(f.Keys, n).value]).value;
  }

  /** And the reply (0x30): planned for the bubble its hash resolves to, if it carries one. */
  lemma PlannedReplyExactly(c: M.Cache, now: Time, f: FieldMap, b: M.Bubble)
    requires Canonical(f)
    ensures Resolve(c, now, f).reply == Some(b) <==>
            exists x, raw :: x in f && KeyAsInt(x) == Some(0x30) && f[x].Plain? && AsHash(f[x].leaf) == Some(raw)
                             && M.Lookup(c, Encode(raw), now).1 == Some(b)
  {
    hide M.Lookup;
    if x, raw :| x in f && KeyAsInt(x) == Some(0x30) && f[x].Plain? && AsHash(f[x].leaf) == Some(raw)
                 && M.Lookup(c, Encode(raw), now).1 == Some(b) {
      FindUnique(f.Keys, 0x30, x);
    }
    if Resolve(c, now, f).reply == Some(b) {
      var x := Find(f.Keys, 0x30).value;
      assert AsHash(f[x].leaf).Some?;
      assert AsHash(f[x].leaf) == Some(AsHash(f[x].leaf).value);
    }
  }
}
