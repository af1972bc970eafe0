/** The round trip field by field: each annotation comes back as the id its author used,
    whatever carrier it came in and whatever the other fields do. */
module RoundTripFields {
  import opened Prelude
  import opened Hex
  import opened Fields
  import opened Rewrite
  import M = IdMap
  import R = IdMapRuns
  import opened RoundTrip

  // ---- The shape of a rewritten map ----------------------------------------

  lemma FewerKeys(few: set<Key>, keys: set<Key>, n: int, x: Key)
    requires OneKeyEach(keys) && few <= keys && x in few && KeyAsInt(x) == Some(n)
    ensures OneKeyEach(few) && Find(few, n) == Some(x)
  {
    FindUnique(few, n, x);
  }

  lemma ReboundShape(f: FieldMap, reply: Option<Option<Bytes>>)
    ensures Rebound(f, reply).Keys <= f.Keys
    ensures forall k :: k in Rebound(f, reply) && Rebound(f, reply)[k].Table? ==> Rebound(f, reply)[k] == f[k]
  {
  }

  lemma RetargetedShape(f: FieldMap, dicts: map<int, Option<Bytes>>)
    requires Canonical(f)
    ensures Retargeted(f, dicts).Keys == f.Keys && Canonical(Retargeted(f, dicts))
  {
    RetargetedCanonical(f, dicts);
  }

  lemma SentShape(k: R.Book, f: FieldMap, g: FieldMap, b: Bytes)
    requires Canonical(f) && Sent(k, f, b) == Some(g)
    ensures g.Keys <= f.Keys && Canonical(g)
  {
    hide Retargeted, Rebound, Bindable, Resolve;
    var s := SightOf(PlanAt(k, f), k.cache, b);
    RetargetedShape(f, s.dicts);
    ReboundShape(Retargeted(f, s.dicts), s.reply);
  }

  // ---- One dictionary field ------------------------------------------------

  /** The recipient's copy of a resolved field reads as the recipient's own view. */
  lemma CopyReads(k: R.Book, f: FieldMap, g: FieldMap, n: int, b: Bytes)
    requires Canonical(f) && Sent(k, f, b) == Some(g) && n in PlanAt(k, f).dicts
    ensures var raw := RawView(k.cache, PlanAt(k, f).dicts[n], b);
            && raw.Some? && TargetKey(f, n).Some? && TargetKey(g, n) == TargetKey(f, n)
            && g[TargetKey(f, n).value] == Retarget(f[TargetKey(f, n).value], raw.value)
            && TargetHex(g, n) == Some(Encode(raw.value))
  {
    hide Resolve, Retarget, Canonical, OneKeyEach, Rewritten;
    PlanEntry(k, f, n);
    TargetBecomesTheirs(k, f, g, n, b);
    SentShape(k, f, g, b);
    CanonicalKeys(f);
    var x := TargetKey(f, n).value;
    FewerKeys(g.Keys, f.Keys, n, x);
    RetargetTwice(f[x], RawView(k.cache, PlanAt(k, f).dicts[n], b).value, []);
  }

  lemma CanonicalKeys(f: FieldMap)
    requires Canonical(f)
    ensures OneKeyEach(f.Keys)
  {
  }

  lemma ResolvesTo(k: R.Book, g: FieldMap, n: int, id: Bytes)
    requires IsDict(n) && TargetHex(g, n) == Some(id) && id != [] && Hit(k.cache, id, k.clock).Some?
    ensures n in PlanAt(k, g).dicts && PlanAt(k, g).dicts[n] == Hit(k.cache, id, k.clock).value
  {
  }

  /** The view of the bubble behind field `n` that this member has. */
  ghost function ViewOfTarget(k: R.Book, f: FieldMap, n: int, member: Bytes): Option<Bytes>
    requires n in PlanAt(k, f).dicts
  {
    M.ViewFor(k.cache, PlanAt(k, f).dicts[n], member)
  }

  /** Field `n` between two moments: A's target, resolved for B, still resolves. */
  ghost predicate StillThere(k: R.Book, k': R.Book, f: FieldMap, n: int, b: Bytes)
    requires n in PlanAt(k, f).dicts
  {
    ViewOfTarget(k, f, n, b).Some? && Hit(k'.cache, ViewOfTarget(k, f, n, b).value, k'.clock).Some?
  }

  lemma RawOfHex(c: M.Cache, bubble: M.Bubble, member: Bytes, id: Bytes)
    requires M.ViewFor(c, bubble, member) == Some(id) && HexId(id)
    ensures RawView(c, bubble, member).Some? && Encode(RawView(c, bubble, member).value) == id
  {
  }

  /** B's copy resolves at the later moment to the bubble A's target named. */
  lemma CopyResolves(k: R.Book, k': R.Book, f: FieldMap, g: FieldMap, a: Bytes, b: Bytes, n: int)
    requires Linked(k, k') && Canonical(f) && Sent(k, f, b) == Some(g) && n in PlanAt(k, f).dicts
    requires Owner(k, TargetHex(f, n)) == Some(a) && StillThere(k, k', f, n, b)
    ensures n in PlanAt(k', g).dicts && PlanAt(k', g).dicts[n] == PlanAt(k, f).dicts[n]
    ensures TargetHex(f, n).Some? && M.ViewFor(k'.cache, PlanAt(k, f).dicts[n], a) == TargetHex(f, n)
    ensures HexId(TargetHex(f, n).value)
  {
    hide Linked, Sent, Resolve, Canonical, Hit;
    PlanEntry(k, f, n);
    var bubble := PlanAt(k, f).dicts[n];
    SameBubbleLater(k, k', TargetHex(f, n).value, bubble, b);
    CopyReads(k, f, g, n, b);
    var view := ViewOfTarget(k, f, n, b).value;
    RawOfHex(k.cache, bubble, b, view);
    ResolvesTo(k', g, n, view);
  }

  /** One field, there and back, in every run: if A's target resolved, and B's view of that
      bubble is still indexed and unexpired later, then whatever the other fields do, the map
      rewritten for B and then for A reads as the id A used, and the field differs from A's
      in the carrier of its target at most. */
  lemma FieldReturns(ks: seq<R.Book>, es: seq<R.Event>, i: nat, j: nat,
                     f: FieldMap, g: FieldMap, h: FieldMap, a: Bytes, b: Bytes, n: int)
    requires R.Run(ks, es) && HexRun(es) && i <= j < |ks| && !ks[j].clash && Canonical(f)
    requires Sent(ks[i], f, b) == Some(g) && Sent(ks[j], g, a) == Some(h)
    requires n in PlanAt(ks[i], f).dicts && Owner(ks[i], TargetHex(f, n)) == Some(a)
    requires StillThere(ks[i], ks[j], f, n, b)
    ensures TargetHex(h, n) == TargetHex(f, n) && TargetHex(f, n).Some? && Decode(TargetHex(f, n).value).Some?
    ensures TargetKey(f, n).Some? && TargetKey(h, n) == TargetKey(f, n)
    ensures h[TargetKey(f, n).value] == Retarget(f[TargetKey(f, n).value], Decode(TargetHex(f, n).value).value)
  {
    hide R.Run, HexRun, Sent, Resolve, Canonical, Retarget, Linked, StillThere;
    RunLinks(ks, es, i, j);
    CopyResolves(ks[i], ks[j], f, g, a, b, n);
    CopyReads(ks[i], f, g, n, b);
    SentShape(ks[i], f, g, b);
    CopyReads(ks[j], g, h, n, a);
    var x := TargetKey(f, n).value;
    RetargetTwice(f[x], RawView(ks[i].cache, PlanAt(ks[i], f).dicts[n], b).value, Decode(TargetHex(f, n).value).value);
  }

  // ---- The reply -----------------------------------------------------------

  lemma ReplyEntry(k: R.Book, f: FieldMap)
    requires PlanAt(k, f).reply.Some?
    ensures ReplyHex(f).Some? && Hit(k.cache, ReplyHex(f).value, k.clock) == PlanAt(k, f).reply
    ensures Find(f.Keys, REPLY_TO).Some?
  {
  }

  lemma RetargetedReply(f: FieldMap, s: map<int, Option<Bytes>>)
    requires REPLY_TO !in s
    ensures ReplyHex(Retargeted(f, s)) == ReplyHex(f)
  {
    ReplyOutside(f, s);
  }

  lemma ReboundReply(f: FieldMap, view: Option<Bytes>)
    requires OneKeyEach(f.Keys) && ReplyHex(f).Some?
    ensures var x := Find(f.Keys, REPLY_TO).value;
            var g := Rebound(f, Some(view));
            && (view.Some? ==> x in g && g[x] == Plain(Blob(view.value)) && ReplyHex(g) == Some(Encode(view.value)))
            && (view.None? ==> g == f - {x} && Find(g.Keys, REPLY_TO).None?)
  {
    var x := Find(f.Keys, REPLY_TO).value;
    var g := Rebound(f, Some(view));
    if view.Some? {
      assert g.Keys == f.Keys;
    }
  }

  /** A resolved reply points at the recipient's own view of the bubble, or is stripped when
      there is none. */
  lemma ReplyBecomesTheirs(k: R.Book, f: FieldMap, g: FieldMap, b: Bytes)
    requires Canonical(f) && Sent(k, f, b) == Some(g) && PlanAt(k, f).reply.Some?
    ensures Find(f.Keys, REPLY_TO).Some?
    ensures var x := Find(f.Keys, REPLY_TO).value;
            var view := RawView(k.cache, PlanAt(k, f).reply.value, b);
            && (view.Some? ==> x in g && g[x] == Plain(Blob(view.value)) && ReplyHex(g) == Some(Encode(view.value)))
            && (view.None? ==> Find(g.Keys, REPLY_TO).None?)
  {
    hide Resolve, Rebound, Retargeted, Bindable, Canonical, OneKeyEach;
    ReplyEntry(k, f);
    PlanNames(k, f);
    CanonicalKeys(f);
    var s := SightOf(PlanAt(k, f), k.cache, b);
    RetargetedReply(f, s.dicts);
    ReboundReply(Retargeted(f, s.dicts), s.reply.value);
  }

  /** The reply, there and back. */
  lemma ReplyFieldReturns(ks: seq<R.Book>, es: seq<R.Event>, i: nat, j: nat,
                          f: FieldMap, g: FieldMap, h: FieldMap, a: Bytes, b: Bytes)
    requires R.Run(ks, es) && HexRun(es) && i <= j < |ks| && !ks[j].clash && Canonical(f)
    requires Sent(ks[i], f, b) == Some(g) && Sent(ks[j], g, a) == Some(h)
    requires PlanAt(ks[i], f).reply.Some? && Owner(ks[i], ReplyHex(f)) == Some(a)
    requires var view := M.ViewFor(ks[i].cache, PlanAt(ks[i], f).reply.value, b);
             view.Some? && Hit(ks[j].cache, view.value, ks[j].clock).Some?
    ensures ReplyHex(h) == ReplyHex(f)
  {
    hide R.Run, HexRun, Sent, Resolve, Canonical, Linked, Hit;
    RunLinks(ks, es, i, j);
    var k, k' := ks[i], ks[j];
    var bubble := PlanAt(k, f).reply.value;
    ReplyEntry(k, f);
    SameBubbleLater(k, k', ReplyHex(f).value, bubble, b);
    var view := M.ViewFor(k.cache, bubble, b).value;
    RawOfHex(k.cache, bubble, b, view);
    ReplyBecomesTheirs(k, f, g, b);
    ReplyResolvesTo(k', g, view);
    SentShape(k, f, g, b);
    RawOfHex(k'.cache, bubble, a, ReplyHex(f).value);
    ReplyBecomesTheirs(k', g, h, a);
  }

  lemma ReplyResolvesTo(k: R.Book, g: FieldMap, id: Bytes)
    requires ReplyHex(g) == Some(id)
    ensures PlanAt(k, g).reply == Hit(k.cache, id, k.clock)
  {
  }

  // ---- Everything else -----------------------------------------------------

  /** Neither plan touches this key. */
  ghost predicate Outside(k: R.Book, f: FieldMap, x: Key) {
    KeyAsInt(x).Some? ==>
      KeyAsInt(x).value !in PlanAt(k, f).dicts && (KeyAsInt(x).value == REPLY_TO ==> PlanAt(k, f).reply.None?)
  }

  lemma OtherFieldReturns(k: R.Book, k': R.Book, f: FieldMap, g: FieldMap, h: FieldMap, a: Bytes, b: Bytes, x: Key)
    requires Canonical(f) && Sent(k, f, b) == Some(g) && Sent(k', g, a) == Some(h) && x in f
    requires Outside(k, f, x) && Outside(k', g, x)
    ensures x in h && h[x] == f[x]
  {
    hide Rewritten, Resolve, Canonical;
    OthersUntouched(f, SightOf(PlanAt(k, f), k.cache, b), x);
    SentShape(k, f, g, b);
    OthersUntouched(g, SightOf(PlanAt(k', g), k'.cache, a), x);
  }

  /** A whole message, there and back, in every run: every annotation of A's that resolved and
      whose view at B still resolves reads as the id A used, the reply too, and every field
      that neither rewriting resolved is what it was. */
  lemma MessageReturns(ks: seq<R.Book>, es: seq<R.Event>, i: nat, j: nat,
                       f: FieldMap, g: FieldMap, h: FieldMap, a: Bytes, b: Bytes)
    requires R.Run(ks, es) && HexRun(es) && i <= j < |ks| && !ks[j].clash && Canonical(f)
    requires Mine(ks[i], f, a) && Sent(ks[i], f, b) == Some(g) && Sent(ks[j], g, a) == Some(h)
    ensures forall n :: n in PlanAt(ks[i], f).dicts && StillThere(ks[i], ks[j], f, n, b) ==>
              TargetHex(h, n) == TargetHex(f, n)
    ensures PlanAt(ks[i], f).reply.Some? ==>
              var view := M.ViewFor(ks[i].cache, PlanAt(ks[i], f).reply.value, b);
              view.Some? && Hit(ks[j].cache, view.value, ks[j].clock).Some? ==> ReplyHex(h) == ReplyHex(f)
    ensures forall x :: x in f && Outside(ks[i], f, x) && Outside(ks[j], g, x) ==> x in h && h[x] == f[x]
  {
    hide R.Run, HexRun, Sent, Resolve, Canonical, StillThere, Outside, TargetHex, ReplyHex, Hit;
    forall n | n in PlanAt(ks[i], f).dicts && StillThere(ks[i], ks[j], f, n, b)
      ensures TargetHex(h, n) == TargetHex(f, n)
    {
      FieldReturns(ks, es, i, j, f, g, h, a, b, n);
    }
    if PlanAt(ks[i], f).reply.Some? {
      var view := M.ViewFor(ks[i].cache, PlanAt(ks[i], f).reply.value, b);
      if view.Some? && Hit(ks[j].cache, view.value, ks[j].clock).Some? {
        ReplyFieldReturns(ks, es, i, j, f, g, h, a, b);
      }
    }
    forall x | x in f && Outside(ks[i], f, x) && Outside(ks[j], g, x)
      ensures x in h && h[x] == f[x]
    {
      OtherFieldReturns(ks[i], ks[j], f, g, h, a, b, x);
    }
  }

  /** A member is never skipped for its own annotations. */
  lemma OwnerNeverSkipped(ks: seq<R.Book>, es: seq<R.Event>, i: nat, f: FieldMap, a: Bytes)
    requires R.Run(ks, es) && HexRun(es) && i < |ks| && !ks[i].clash && Canonical(f) && Mine(ks[i], f, a)
    ensures Sent(ks[i], f, a).Some?
  {
    hide R.Run, HexRun, Linked, Resolve, Canonical, Rewritten, Hit;
    RunLinks(ks, es, i, i);
    var k := ks[i];
    forall n | n in PlanAt(k, f).dicts
      ensures RawView(k.cache, PlanAt(k, f).dicts[n], a).Some?
    {
      PlanEntry(k, f, n);
      SameBubbleLater(k, k, TargetHex(f, n).value, PlanAt(k, f).dicts[n], a);
      RawOfHex(k.cache, PlanAt(k, f).dicts[n], a, TargetHex(f, n).value);
    }
    SkippedExactly(k, f, k.cache, a);
  }
}
