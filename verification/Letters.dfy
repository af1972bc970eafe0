/** What is in a letter, field by field and without reference to how it was made. */
module Letters {
  import opened Prelude
  import opened Hex
  import opened Fields
  import opened Rewrite
  import opened Fanout
  import M = IdMap
  import RoundTrip
  import RF = RoundTripFields

  /** The dictionary with its target (inner key 0, in any key type) pointing at this hash, and
      everything else as it was. */
  predicate PointsAt(v: Value, v': Value, raw: Bytes) {
    && v.Table? && v'.Table? && v'.entries.Keys == v.entries.Keys
    && (forall y :: y in v.entries ==> v'.entries[y] == if KeyAsInt(y) == Some(0) then Blob(raw) else v.entries[y])
  }

  /** One member's copy of a field map: every planned dictionary points at the member's own view
      of its bubble, the planned reply (field 0x30) is the member's view or gone, and every other
      field is the sender's. */
  ghost predicate CopyOf(f: FieldMap, g: FieldMap, p: Plan, c: M.Cache, h: Bytes) {
    && g.Keys <= f.Keys
    && (forall x :: x in f ==> EntryCopy(f, g, p, c, h, x))
  }

  predicate EntryCopy(f: FieldMap, g: FieldMap, p: Plan, c: M.Cache, h: Bytes, x: Key)
    requires x in f
  {
    var n := KeyAsInt(x);
    if n.Some? && n.value in p.dicts then
      var view := RawView(c, p.dicts[n.value], h);
      view.Some? && x in g && PointsAt(f[x], g[x], view.value)
    else if n == Some(0x30) && p.reply.Some? then
      var view := RawView(c, p.reply.value, h);
      if view.Some? then x in g && g[x] == Plain(Blob(view.value)) else x !in g
    else x in g && g[x] == f[x]
  }

  /** The plan names fields this map has. */
  ghost predicate PlanOf(f: FieldMap, p: Plan) {
    && (forall n :: n in p.dicts ==> IsDict(n) && TargetKey(f, n).Some?)
    && (p.reply.Some? ==> ReplyHex(f).Some?)
  }

  lemma RetargetPoints(v: Value, raw: Bytes)
    requires HasTarget(v) && OneKeyEach(v.entries.Keys)
    ensures PointsAt(v, Retarget(v, raw), raw)
  {
    var t := Find(v.entries.Keys, TARGET).value;
    forall y | y in v.entries && KeyAsInt(y) == Some(0)
      ensures y == t
    {
    }
  }

  lemma DictCopy(f: FieldMap, s: Sight, n: int, x: Key)
    requires Canonical(f) && Rewritten(f, s).Some? && n in s.dicts && n != REPLY_TO && TargetKey(f, n) == Some(x)
    ensures s.dicts[n].Some? && x in Rewritten(f, s).value
    ensures PointsAt(f[x], Rewritten(f, s).value[x], s.dicts[n].value)
  {
    hide Retarget, PointsAt, Rebound;
    assert Annotates(f, x, s.dicts);
    RoundTrip.ReboundElsewhere(Retargeted(f, s.dicts), s.reply, x);
    RetargetPoints(f[x], s.dicts[n].value);
  }

  lemma ReplyCopy(f: FieldMap, s: Sight, x: Key)
    requires Canonical(f) && Rewritten(f, s).Some? && REPLY_TO !in s.dicts && s.reply.Some? && ReplyHex(f).Some?
    requires x in f && KeyAsInt(x) == Some(REPLY_TO)
    ensures var g := Rewritten(f, s).value;
            var view := s.reply.value;
            if view.Some? then x in g && g[x] == Plain(Blob(view.value)) else x !in g
  {
    hide Rebound, Retargeted, Bindable;
    FindUnique(f.Keys, REPLY_TO, x);
    RF.RetargetedReply(f, s.dicts);
    RF.ReboundReply(Retargeted(f, s.dicts), s.reply.value);
  }

  lemma RewrittenShape(f: FieldMap, s: Sight)
    requires Rewritten(f, s).Some?
    ensures Rewritten(f, s).value.Keys <= f.Keys
  {
    RF.ReboundShape(Retargeted(f, s.dicts), s.reply);
  }

  /** The rewrite closure makes exactly such a copy. */
  lemma RewriteCopies(f: FieldMap, p: Plan, c: M.Cache, h: Bytes)
    requires Canonical(f) && PlanOf(f, p) && Rewritten(f, SightOf(p, c, h)).Some?
    ensures CopyOf(f, Rewritten(f, SightOf(p, c, h)).value, p, c, h)
  {
    hide Rewritten, RawView, PointsAt, Canonical;
    var s := SightOf(p, c, h);
    RewrittenShape(f, s);
    forall x | x in f
      ensures EntryCopy(f, Rewritten(f, s).value, p, c, h, x)
    {
      var n := KeyAsInt(x);
      if n.Some? && n.value in p.dicts {
        CanonicalFind(f, n.value, x);
        DictCopy(f, s, n.value, x);
      } else if n == Some(REPLY_TO) && p.reply.Some? {
        ReplyCopy(f, s, x);
      } else {
        RoundTrip.OthersUntouched(f, s, x);
      }
    }
  }

  lemma CanonicalFind(f: FieldMap, n: int, x: Key)
    requires Canonical(f) && x in f && KeyAsInt(x) == Some(n) && TargetKey(f, n).Some?
    ensures TargetKey(f, n) == Some(x)
  {
    FindUnique(f.Keys, n, x);
  }

  /** A letter's contents: the body for everybody; no fields for text-only members; for the
      others the job's fields, or this member's copy of them when there is a plan. */
  ghost predicate Carries(j: Job, h: Bytes, l: Letter) {
    && l.member == h && l.body == j.body
    && (l.fields.None? <==> h in j.textOnly || j.fields.None?)
    && (l.fields.Some? ==>
          if j.plan.None? then l.fields == j.fields
          else CopyOf(j.fields.value, l.fields.value, j.plan.value, j.cache, h))
  }

  lemma LetterCarries(j: Job, h: Bytes)
    requires j.plan.Some? ==> j.fields.Some? && Canonical(j.fields.value) && PlanOf(j.fields.value, j.plan.value)
    ensures LetterFor(j, h).Some? ==> Carries(j, h, LetterFor(j, h).value)
  {
    hide Rewritten, CopyOf, Canonical, PlanOf;
    if j.plan.Some? && Rewritten(j.fields.value, SightOf(j.plan.value, j.cache, h)).Some? {
      RewriteCopies(j.fields.value, j.plan.value, j.cache, h);
    }
  }
}
