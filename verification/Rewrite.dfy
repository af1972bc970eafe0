/** Per-recipient rewriting of annotation targets (internal/service/rewrite.go), as
    functions of field maps. `RewriteHeap` refines these on shared mutable maps. */
module Rewrite {
  import opened Prelude
  import opened Hex
  import opened Fields
  import M = IdMap

  predicate IsDict(n: int) { n == REACTION || n == COMMENT || n == CONTINUATION }

  /** Which annotation fields resolved, and to which bubbles. */
  datatype Plan = Plan(dicts: map<int, M.Bubble>, reply: Option<M.Bubble>)

  function Hit(c: M.Cache, id: Bytes, now: Time): Option<M.Bubble> { M.Lookup(c, id, now).1 }

  ghost function TargetHex(f: FieldMap, n: int): Option<Bytes> {
    var k := Find(f.Keys, n);
    if k.None? then None
    else
      var t := DictTarget(f[k.value]);
      if t.None? then None else Some(Encode(t.value))
  }

  ghost function ReplyHex(f: FieldMap): Option<Bytes> {
    var k := Find(f.Keys, REPLY_TO);
    if k.None? || !f[k.value].Plain? then None
    else
      var t := AsHash(f[k.value].leaf);
      if t.None? then None else Some(Encode(t.value))
  }

  ghost function DictHit(c: M.Cache, now: Time, f: FieldMap, n: int): Option<M.Bubble> {
    var t := TargetHex(f, n);
    if t.None? || t.value == [] then None else Hit(c, t.value, now)
  }

  ghost function ReplyHit(c: M.Cache, now: Time, f: FieldMap): Option<M.Bubble> {
    var t := ReplyHex(f);
    if t.None? then None else Hit(c, t.value, now)
  }

  /** The scan of `buildRewrite`. */
  ghost function Resolve(c: M.Cache, now: Time, f: FieldMap): Plan {
    Plan(map n | n in {REACTION, COMMENT, CONTINUATION} && DictHit(c, now, f, n).Some? :: DictHit(c, now, f, n).value,
         ReplyHit(c, now, f))
  }

  /** A recipient's view of a bubble as raw bytes. */
  function RawView(c: M.Cache, b: M.Bubble, recipient: Bytes): Option<Bytes> {
    var v := M.ViewFor(c, b, recipient);
    if v.None? then None else Decode(v.value)
  }

  /** What one recipient can see: per resolved field, the id to substitute. */
  datatype Sight = Sight(dicts: map<int, Option<Bytes>>, reply: Option<Option<Bytes>>)

  function Sighted(dicts: map<int, M.Bubble>, c: M.Cache, recipient: Bytes): map<int, Option<Bytes>> {
    map n | n in dicts :: RawView(c, dicts[n], recipient)
  }

  function SightOf(p: Plan, c: M.Cache, recipient: Bytes): Sight {
    Sight(Sighted(p.dicts, c, recipient),
          if p.reply.None? then None else Some(RawView(c, p.reply.value, recipient)))
  }

  ghost predicate HasTarget(v: Value) { v.Table? && Find(v.entries.Keys, TARGET).Some? }

  ghost function Retarget(v: Value, raw: Bytes): Value {
    if HasTarget(v) then Table(v.entries[Find(v.entries.Keys, TARGET).value := Blob(raw)]) else v
  }

  /** Does this key carry a resolved dictionary annotation? */
  ghost predicate Annotates(f: FieldMap, k: Key, dicts: map<int, Option<Bytes>>) {
    k in f && KeyAsInt(k).Some? && KeyAsInt(k).value in dicts && HasTarget(f[k])
  }

  ghost predicate Bindable(f: FieldMap, dicts: map<int, Option<Bytes>>) {
    forall k :: k in f && Annotates(f, k, dicts) ==> dicts[KeyAsInt(k).value].Some?
  }

  ghost function Retargeted(f: FieldMap, dicts: map<int, Option<Bytes>>): (r: FieldMap)
    ensures r.Keys == f.Keys
  {
    map k | k in f ::
      if Annotates(f, k, dicts) && dicts[KeyAsInt(k).value].Some?
      then Retarget(f[k], dicts[KeyAsInt(k).value].value) else f[k]
  }

  /** Replies are gentler: an unseen target is stripped, the message still goes. */
  ghost function Rebound(f: FieldMap, reply: Option<Option<Bytes>>): FieldMap {
    var k := Find(f.Keys, REPLY_TO);
    if reply.None? || k.None? || !f[k.value].Plain? || AsHash(f[k.value].leaf).None? then f
    else if reply.value.Some? then f[k.value := Plain(Blob(reply.value.value))]
    else f - {k.value}
  }

  /** The rewrite closure: `None` means "skip this recipient". */
  ghost function Rewritten(f: FieldMap, s: Sight): Option<FieldMap> {
    if Bindable(f, s.dicts) then Some(Rebound(Retargeted(f, s.dicts), s.reply)) else None
  }

  /** The key of field `n`, when it holds a dictionary with a target. */
  ghost function TargetKey(f: FieldMap, n: int): Option<Key> {
    var k := Find(f.Keys, n);
    if k.Some? && HasTarget(f[k.value]) then k else None
  }

  /** One field substituted; `None` when the field needs a view and there is none. */
  ghost function Substituted(f: FieldMap, n: int, raw: Option<Bytes>): Option<FieldMap> {
    var k := TargetKey(f, n);
    if k.None? then Some(f)
    else if raw.None? then None
    else Some(f[k.value := Retarget(f[k.value], raw.value)])
  }

  lemma RetargetKeepsKeys(v: Value, raw: Bytes)
    ensures Retarget(v, raw).Table? == v.Table?
    ensures v.Table? ==> Retarget(v, raw).entries.Keys == v.entries.Keys
  {
  }

  lemma RetargetedCanonical(f: FieldMap, dicts: map<int, Option<Bytes>>)
    requires Canonical(f)
    ensures Canonical(Retargeted(f, dicts))
  {
    var g := Retargeted(f, dicts);
    forall k | k in g && g[k].Table?
      ensures OneKeyEach(g[k].entries.Keys)
    {
      if Annotates(f, k, dicts) && dicts[KeyAsInt(k).value].Some? {
        RetargetKeepsKeys(f[k], dicts[KeyAsInt(k).value].value);
      }
    }
  }

  lemma AnnotatesMore(f: FieldMap, done: map<int, Option<Bytes>>, n: int, raw: Option<Bytes>, x: Key)
    requires Canonical(f) && n !in done && x in f
    ensures Annotates(f, x, done[n := raw]) <==> Annotates(f, x, done) || TargetKey(f, n) == Some(x)
    ensures TargetKey(f, n) == Some(x) ==> !Annotates(f, x, done) && KeyAsInt(x) == Some(n)
    ensures Annotates(f, x, done) ==> KeyAsInt(x) != Some(n)
  {
    hide HasTarget;
    if KeyAsInt(x) == Some(n) {
      FindUnique(f.Keys, n, x);
    }
  }

  lemma TargetKeySame(f: FieldMap, g: FieldMap, n: int)
    requires g.Keys == f.Keys && forall x :: x in f && KeyAsInt(x) == Some(n) ==> g[x] == f[x]
    ensures TargetKey(g, n) == TargetKey(f, n)
    ensures TargetKey(f, n).Some? ==> TargetKey(f, n).value in f && g[TargetKey(f, n).value] == f[TargetKey(f, n).value]
  {
  }

  /** One more field of the plan, on top of those already done. */
  lemma SubstituteStep(f: FieldMap, done: map<int, Option<Bytes>>, n: int, raw: Option<Bytes>)
    requires Canonical(f) && n !in done && Bindable(f, done)
    ensures var next := Substituted(Retargeted(f, done), n, raw);
            && (next.Some? <==> Bindable(f, done[n := raw]))
            && (next.Some? ==> next.value == Retargeted(f, done[n := raw]))
  {
    hide Retarget, KeyAsInt, Canonical, TargetKey;
    var more := done[n := raw];
    var g := Retargeted(f, done);
    forall x | x in f
      ensures Annotates(f, x, more) <==> Annotates(f, x, done) || TargetKey(f, n) == Some(x)
      ensures TargetKey(f, n) == Some(x) ==> !Annotates(f, x, done) && KeyAsInt(x) == Some(n)
      ensures KeyAsInt(x) == Some(n) ==> g[x] == f[x]
    {
      AnnotatesMore(f, done, n, raw, x);
    }
    TargetKeySame(f, g, n);
    var k := TargetKey(f, n);
    if k.Some? {
      assert Annotates(f, k.value, more);
      if raw.Some? {
        assert g[k.value := Retarget(f[k.value], raw.value)] == Retargeted(f, more);
      }
    } else {
      assert g == Retargeted(f, more);
    }
  }

  lemma UnbindablePart(f: FieldMap, part: map<int, Option<Bytes>>, whole: map<int, Option<Bytes>>)
    requires !Bindable(f, part) && forall n :: n in part ==> n in whole && whole[n] == part[n]
    ensures !Bindable(f, whole)
  {
    var k :| k in f && Annotates(f, k, part) && part[KeyAsInt(k).value].None?;
    assert Annotates(f, k, whole);
  }

  // ---- The closure's loop, in any order ------------------------------------

  type Visit = (int, Option<Bytes>)

  ghost function ApplyAll(f: FieldMap, steps: seq<Visit>): Option<FieldMap> {
    if |steps| == 0 then Some(f)
    else
      var g := ApplyAll(f, steps[..|steps| - 1]);
      if g.None? then None else Substituted(g.value, steps[|steps| - 1].0, steps[|steps| - 1].1)
  }

  function Done(steps: seq<Visit>): map<int, Option<Bytes>> {
    if |steps| == 0 then map[] else Done(steps[..|steps| - 1])[steps[|steps| - 1].0 := steps[|steps| - 1].1]
  }

  /** No field is visited twice. */
  predicate Once(steps: seq<Visit>) {
    |steps| == 0 || (Once(steps[..|steps| - 1]) && steps[|steps| - 1].0 !in Done(steps[..|steps| - 1]))
  }

  predicate Part(a: map<int, Option<Bytes>>, b: map<int, Option<Bytes>>) {
    forall n :: n in a ==> n in b && b[n] == a[n]
  }

  lemma SubstitutedCanonical(f: FieldMap, n: int, raw: Option<Bytes>)
    requires Canonical(f)
    ensures Substituted(f, n, raw).Some? ==> Canonical(Substituted(f, n, raw).value)
  {
    var k := TargetKey(f, n);
    if k.Some? && raw.Some? {
      RetargetKeepsKeys(f[k.value], raw.value);
      var g := f[k.value := Retarget(f[k.value], raw.value)];
      assert g.Keys == f.Keys;
    }
  }

  lemma {:induction false} ApplyAllCanonical(f: FieldMap, steps: seq<Visit>)
    requires Canonical(f)
    ensures ApplyAll(f, steps).Some? ==> Canonical(ApplyAll(f, steps).value)
  {
    if |steps| > 0 {
      var s := steps[..|steps| - 1];
      ApplyAllCanonical(f, s);
      if ApplyAll(f, s).Some? {
        SubstitutedCanonical(ApplyAll(f, s).value, steps[|steps| - 1].0, steps[|steps| - 1].1);
      }
    }
  }

  lemma {:induction false} ApplyAllMeaning(f: FieldMap, steps: seq<Visit>)
    requires Canonical(f) && Once(steps)
    ensures ApplyAll(f, steps) == if Bindable(f, Done(steps)) then Some(Retargeted(f, Done(steps))) else None
  {
    if |steps| == 0 {
      assert Retargeted(f, map[]) == f;
    } else {
      var s := steps[..|steps| - 1];
      var (n, raw) := steps[|steps| - 1];
      ApplyAllMeaning(f, s);
      if Bindable(f, Done(s)) {
        SubstituteStep(f, Done(s), n, raw);
      } else {
        UnbindablePart(f, Done(s), Done(steps));
      }
    }
  }

  /** The closure's outcome does not depend on the order in which it walks the plan:
      a complete walk gives the one rewritten map, a failed walk means "skip". */
  lemma OrderIrrelevant(f: FieldMap, steps: seq<Visit>, s: Sight)
    requires Canonical(f) && Once(steps) && Part(Done(steps), s.dicts)
    requires ApplyAll(f, steps).Some? ==> Done(steps) == s.dicts
    ensures Rewritten(f, s) ==
            match ApplyAll(f, steps) case None => None case Some(g) => Some(Rebound(g, s.reply))
  {
    ApplyAllMeaning(f, steps);
    if ApplyAll(f, steps).None? {
      UnbindablePart(f, Done(steps), s.dicts);
    }
  }
}
