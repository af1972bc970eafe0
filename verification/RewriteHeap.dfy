/** rewrite.go in its own form. Field maps and their inner dictionaries are shared,
    mutable objects here, so "a substitution for one recipient must not leak into the
    next recipient's copy" is a statement about the heap. */
module RewriteHeap {
  import opened Prelude
  import opened Hex
  import opened Fields
  import opened Rewrite
  import M = IdMap
  import opened IdCache

  /** An inner `map[any]any`. */
  class Dict {
    var m: map<Key, Leaf>

    constructor (m: map<Key, Leaf>)
      ensures this.m == m
    {
      this.m := m;
    }
  }

  datatype Cell = Flat(leaf: Leaf) | Ref(d: Dict)

  /** An outer `map[any]any`. */
  class FieldTable {
    var m: map<Key, Cell>

    constructor ()
      ensures m == map[]
    {
      m := map[];
    }
  }

  ghost function Refs(m: map<Key, Cell>): set<Dict> { set k | k in m && m[k].Ref? :: m[k].d }

  ghost function CellValue(c: Cell): Value
    reads if c.Ref? then {c.d} else {}
  {
    match c
    case Flat(l) => Plain(l)
    case Ref(d) => Table(d.m)
  }

  /** The field map an outer object currently denotes. */
  ghost function View(t: FieldTable): FieldMap
    reads t, Refs(t.m)
  {
    map k | k in t.m :: assert t.m[k].Ref? ==> t.m[k].d in Refs(t.m); CellValue(t.m[k])
  }

  method CloneFields(t: FieldTable) returns (out: FieldTable)
    ensures fresh(out) && out.m == t.m
  {
    out := new FieldTable();
    var keys := t.m.Keys;
    while keys != {}
      invariant keys <= t.m.Keys
      invariant out.m == t.m - keys
    {
      var k :| k in keys;
      out.m := out.m[k := t.m[k]];
      keys := keys - {k};
    }
  }

  method CopyDict(d: Dict) returns (e: Dict)
    ensures fresh(e) && e.m == d.m
  {
    e := new Dict(map[]);
    var keys := d.m.Keys;
    while keys != {}
      invariant keys <= d.m.Keys
      invariant e.m == d.m - keys
    {
      var k :| k in keys;
      e.m := e.m[k := d.m[k]];
      keys := keys - {k};
    }
  }

  /** Scans a key set, in any order, for one carrying this number. */
  method FindKey(keys: set<Key>, n: int) returns (k: Option<Key>)
    requires OneKeyEach(keys)
    ensures k == Find(keys, n)
  {
    var rest := keys;
    while rest != {}
      invariant rest <= keys
      invariant forall x :: x in keys - rest ==> KeyAsInt(x) != Some(n)
    {
      var x :| x in rest;
      if KeyAsInt(x) == Some(n) {
        FindUnique(keys, n, x);
        return Some(x);
      }
      rest := rest - {x};
    }
    return None;
  }

  /** `asHashBytes` on a live value. */
  method AsHashCell(c: Cell) returns (raw: Option<Bytes>)
    ensures raw == if c.Flat? then AsHash(c.leaf) else None
  {
    if c.Flat? {
      return AsHash(c.leaf);
    }
    return None;
  }

  // Writes to an outer map, as changes of the map it denotes.

  method PutDict(t: FieldTable, k: Key, d: Dict)
    modifies t
    ensures View(t) == old(View(t))[k := Table(d.m)]
    ensures Refs(t.m) <= old(Refs(t.m)) + {d}
  {
    t.m := t.m[k := Ref(d)];
  }

  method PutBlob(t: FieldTable, k: Key, raw: Bytes)
    modifies t
    ensures View(t) == old(View(t))[k := Plain(Blob(raw))]
    ensures Refs(t.m) <= old(Refs(t.m))
  {
    t.m := t.m[k := Flat(Blob(raw))];
  }

  method Delete(t: FieldTable, k: Key)
    modifies t
    ensures View(t) == old(View(t)) - {k}
    ensures Refs(t.m) <= old(Refs(t.m))
  {
    t.m := t.m - {k};
  }

  /** The inner map rebuilt with one entry replaced; the shared original is left alone. */
  method RebuildDict(d: Dict, tk: Key, raw: Bytes) returns (e: Dict)
    ensures fresh(e) && e.m == d.m[tk := Blob(raw)]
  {
    e := CopyDict(d);
    e.m := e.m[tk := Blob(raw)];
  }

  /** The two nested scans of `substituteDictTarget`: the field, then its inner target key. */
  method LocateTarget(t: FieldTable, n: int) returns (at: Option<(Key, Dict, Key)>)
    requires Canonical(View(t))
    ensures at.Some? <==> TargetKey(View(t), n).Some?
    ensures at.Some? ==>
              var (k, d, tk) := at.value;
              && TargetKey(View(t), n) == Some(k) && k in t.m && t.m[k] == Ref(d)
              && Find(d.m.Keys, TARGET) == Some(tk)
  {
    assert View(t).Keys == t.m.Keys;
    var k := FindKey(t.m.Keys, n);
    if k.None? {
      return None;
    }
    var cell := t.m[k.value];
    assert View(t)[k.value] == CellValue(cell);
    if cell.Flat? {
      return None;
    }
    var tk := FindKey(cell.d.m.Keys, TARGET);
    if tk.None? {
      return None;
    }
    return Some((k.value, cell.d, tk.value));
  }

  function Raw(view: Option<Bytes>): Option<Bytes> { if view.None? then None else Decode(view.value) }

  /** `substituteDictTarget`: writes the outer map only; the inner one is rebuilt. */
  method SubstituteDictTarget(t: FieldTable, n: int, view: Option<Bytes>) returns (ok: bool)
    requires Canonical(View(t))
    modifies t
    ensures ok == Substituted(old(View(t)), n, Raw(view)).Some?
    ensures ok ==> View(t) == Substituted(old(View(t)), n, Raw(view)).value
    ensures forall d :: d in Refs(t.m) ==> d in old(Refs(t.m)) || fresh(d)
  {
    hide Canonical, HasTarget, Retarget;
    var at := LocateTarget(t, n);
    if at.None? {
      return true;
    }
    if view.None? {
      return false;
    }
    var raw := Decode(view.value);
    if raw.None? {
      return false;
    }
    var (k, d, tk) := at.value;
    WriteTarget(t, k, d, tk, raw.value);
    return true;
  }

  method WriteTarget(t: FieldTable, k: Key, d: Dict, tk: Key, raw: Bytes)
    requires k in t.m && t.m[k] == Ref(d) && Find(d.m.Keys, TARGET) == Some(tk)
    modifies t
    ensures k in old(View(t)) && View(t) == old(View(t))[k := Retarget(old(View(t))[k], raw)]
    ensures forall x :: x in Refs(t.m) ==> x in old(Refs(t.m)) || fresh(x)
  {
    assert View(t)[k] == Table(d.m);
    var newMap := RebuildDict(d, tk, raw);
    PutDict(t, k, newMap);
  }

  /** `substituteReplyHash` followed, when it cannot bind, by `stripReplyHash`. */
  method RebindReply(t: FieldTable, view: Option<Bytes>)
    requires Canonical(View(t))
    modifies t
    ensures View(t) == Rebound(old(View(t)), Some(Raw(view)))
    ensures Refs(t.m) <= old(Refs(t.m))
  {
    hide Decode;
    assert View(t).Keys == t.m.Keys;
    var k := FindKey(t.m.Keys, REPLY_TO);
    if k.None? {
      return;
    }
    assert View(t)[k.value] == CellValue(t.m[k.value]);
    var raw := AsHashCell(t.m[k.value]);
    if raw.None? {
      return;
    }
    var seen := if view.None? then None else Decode(view.value);
    if seen.None? {
      Delete(t, k.value);
    } else {
      PutBlob(t, k.value, seen.value);
    }
  }

  /** The loop body: look the recipient's view up, substitute. */
  method ApplyOne(copy: FieldTable, n: int, view: Option<Bytes>, ghost f: FieldMap, ghost steps: seq<Visit>)
    returns (ok: bool, ghost more: seq<Visit>)
    requires Canonical(View(copy)) && ApplyAll(f, steps) == Some(View(copy)) && Once(steps) && n !in Done(steps)
    modifies copy
    ensures ApplyAll(f, more) == if ok then Some(View(copy)) else None
    ensures ok ==> Canonical(View(copy))
    ensures Once(more) && Done(more) == Done(steps)[n := Raw(view)]
    ensures forall d :: d in Refs(copy.m) ==> d in old(Refs(copy.m)) || fresh(d)
  {
    SubstitutedCanonical(View(copy), n, Raw(view));
    more := steps + [(n, Raw(view))];
    assert more[..|more| - 1] == steps;
    ok := SubstituteDictTarget(copy, n, view);
  }

  /** The closure's loop over the resolved dictionary fields, in whatever order it takes. */
  method ApplyDicts(copy: FieldTable, dicts: map<int, M.Bubble>, cache: IdCache, recipient: Bytes)
    returns (ok: bool, ghost steps: seq<Visit>)
    requires Canonical(View(copy))
    modifies copy
    ensures ApplyAll(old(View(copy)), steps) == if ok then Some(View(copy)) else None
    ensures Once(steps) && Part(Done(steps), Sighted(dicts, cache.Model(), recipient))
    ensures ok ==> Done(steps) == Sighted(dicts, cache.Model(), recipient)
    ensures forall d :: d in Refs(copy.m) ==> d in old(Refs(copy.m)) || fresh(d)
  {
    ghost var sight := Sighted(dicts, cache.Model(), recipient);
    ghost var f, now := View(copy), View(copy);
    var rest := dicts.Keys;
    steps := [];
    while rest != {}
      invariant rest <= dicts.Keys
      invariant View(copy) == now && Canonical(now)
      invariant ApplyAll(f, steps) == Some(now)
      invariant Once(steps) && Done(steps) == sight - rest
      invariant forall d :: d in Refs(copy.m) ==> d in old(Refs(copy.m)) || fresh(d)
    {
      var n := PickAny(rest);
      var view := cache.ViewFor(dicts[n], recipient);
      OneFewer(sight, rest, n);
      assert View(copy) == now;
      ok, steps := ApplyOne(copy, n, view, f, steps);
      if !ok {
        return;
      }
      now := View(copy);
      rest := rest - {n};
    }
    ok := true;
  }

  lemma OneFewer(sight: map<int, Option<Bytes>>, rest: set<int>, n: int)
    requires n in rest && n in sight
    ensures (sight - rest)[n := sight[n]] == sight - (rest - {n})
    ensures n !in sight - rest
  {
  }

  method PickAny(s: set<int>) returns (n: int)
    requires s != {}
    ensures n in s
  {
    assert (forall x :: x !in s) ==> s == {};
    n :| n in s;
  }

  /** Clone, then substitute: everything the closure does before the reply. */
  method CloneAndApply(t: FieldTable, dicts: map<int, M.Bubble>, cache: IdCache, recipient: Bytes)
    returns (copy: FieldTable, ok: bool, ghost steps: seq<Visit>)
    requires Canonical(View(t))
    ensures fresh(copy) && (forall d :: d in Refs(copy.m) ==> d in Refs(t.m) || fresh(d))
    ensures ApplyAll(View(t), steps) == if ok then Some(View(copy)) else None
    ensures Once(steps) && Part(Done(steps), Sighted(dicts, cache.Model(), recipient))
    ensures ok ==> Done(steps) == Sighted(dicts, cache.Model(), recipient)
  {
    ghost var f := View(t);
    copy := CloneFields(t);
    assert View(copy) == f;
    ok, steps := ApplyDicts(copy, dicts, cache, recipient);
    assert View(t) == f;
  }

  /** The closure's steps, and the order in which it took them. */
  method RewriteInOrder(t: FieldTable, plan: Plan, cache: IdCache, recipient: Bytes)
    returns (out: Option<FieldTable>, ghost steps: seq<Visit>)
    requires Canonical(View(t))
    ensures out.Some? ==> fresh(out.value) && (forall d :: d in Refs(out.value.m) ==> d in Refs(t.m) || fresh(d))
    ensures Once(steps) && Part(Done(steps), Sighted(plan.dicts, cache.Model(), recipient))
    ensures out.Some? == ApplyAll(View(t), steps).Some?
    ensures out.Some? ==> Done(steps) == Sighted(plan.dicts, cache.Model(), recipient)
    ensures out.Some? ==> View(out.value) == Rebound(ApplyAll(View(t), steps).value,
                                                     SightOf(plan, cache.Model(), recipient).reply)
  {
    var copy, ok;
    copy, ok, steps := CloneAndApply(t, plan.dicts, cache, recipient);
    ghost var f := View(t);
    if !ok {
      return None, steps;
    }
    ApplyAllCanonical(f, steps);
    FinishReply(copy, plan.reply, cache, recipient);
    assert View(t) == f;
    return Some(copy), steps;
  }

  /** The rewrite closure, run once per recipient. It has no `modifies` clause: the
      input map, every inner map it shares and every earlier recipient's copy are
      left exactly as they were. */
  method RewriteFor(t: FieldTable, plan: Plan, cache: IdCache, recipient: Bytes) returns (out: Option<FieldTable>)
    requires Canonical(View(t))
    ensures out.Some? ==> fresh(out.value) && (forall d :: d in Refs(out.value.m) ==> d in Refs(t.m) || fresh(d))
    ensures Rewritten(View(t), SightOf(plan, cache.Model(), recipient)) ==
            if out.Some? then Some(View(out.value)) else None
  {
    ghost var steps;
    out, steps := RewriteInOrder(t, plan, cache, recipient);
    OrderIrrelevant(View(t), steps, SightOf(plan, cache.Model(), recipient));
  }

  method FinishReply(copy: FieldTable, reply: Option<M.Bubble>, cache: IdCache, recipient: Bytes)
    requires Canonical(View(copy))
    modifies copy
    ensures View(copy) == Rebound(old(View(copy)),
                                  if reply.None? then None else Some(RawView(cache.Model(), reply.value, recipient)))
    ensures Refs(copy.m) <= old(Refs(copy.m))
  {
    if reply.Some? {
      var view := cache.ViewFor(reply.value, recipient);
      RebindReply(copy, view);
    }
  }
}
