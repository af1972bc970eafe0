/** One fan-out (internal/service/forward.go) and the inbound path that prepares it
    (internal/service/inbox.go). */
module Fanout {
  import opened Prelude
  import opened Hex
  import opened Fields
  import opened Rewrite
  import opened RewriteHeap
  import opened Attachments
  import opened Planning
  import M = IdMap
  import RoundTrip
  import opened IdCache

  /** Everything `forwardToRoster` reads. `fields` is `None` for Go's nil map, `plan` is
      `None` when there is nothing to rewrite. */
  datatype Job = Job(sender: Bytes, body: Bytes, fields: Option<FieldMap>, plan: Option<Plan>,
                     cache: M.Cache, textOnly: set<Bytes>)

  /** One queued message. */
  datatype Letter = Letter(member: Bytes, body: Bytes, fields: Option<FieldMap>)

  predicate Address(h: Bytes) { Decode(h).Some? && |Decode(h).value| == 16 }

  /** The fields this member would be sent, policy aside; `None` means "skip". */
  ghost function Rendered(j: Job, h: Bytes): Option<Option<FieldMap>> {
    if j.plan.None? || j.fields.None? then Some(j.fields)
    else
      var g := Rewritten(j.fields.value, SightOf(j.plan.value, j.cache, h));
      if g.None? then None else Some(g)
  }

  ghost function LetterFor(j: Job, h: Bytes): Option<Letter> {
    if h == j.sender || !Address(h) || Rendered(j, h).None? then None
    else if h !in j.textOnly then Some(Letter(h, j.body, Rendered(j, h).value))
    else if j.body == [] then None
    else Some(Letter(h, j.body, None))
  }

  ghost function Fan(j: Job, hashes: seq<Bytes>): seq<Letter> {
    if |hashes| == 0 then []
    else
      var front := Fan(j, hashes[..|hashes| - 1]);
      var last := LetterFor(j, hashes[|hashes| - 1]);
      if last.Some? then front + [last.value] else front
  }

  /** The same walk when each round may find the cache in a different state. */
  ghost function FanOver(j: Job, hashes: seq<Bytes>, moments: seq<M.Cache>): seq<Letter>
    requires |moments| == |hashes|
  {
    if |hashes| == 0 then []
    else
      var n := |hashes| - 1;
      var front := FanOver(j, hashes[..n], moments[..n]);
      var last := LetterFor(j.(cache := moments[n]), hashes[n]);
      if last.Some? then front + [last.value] else front
  }

  lemma {:induction false} FanOverOne(j: Job, hashes: seq<Bytes>, moments: seq<M.Cache>)
    requires |moments| == |hashes| && forall i :: 0 <= i < |moments| ==> moments[i] == j.cache
    ensures FanOver(j, hashes, moments) == Fan(j, hashes)
  {
    hide LetterFor;
    if |hashes| > 0 {
      var n := |hashes| - 1;
      FanOverOne(j, hashes[..n], moments[..n]);
      assert j.(cache := moments[n]) == j;
    }
  }

  /** However workers register views meanwhile, each member gets at most one letter: the one
      that its own views at its own round make, or none. */
  lemma {:induction false} OneLetterEachOver(j: Job, hashes: seq<Bytes>, moments: seq<M.Cache>)
    requires |moments| == |hashes| && Distinct(hashes)
    ensures var out := FanOver(j, hashes, moments);
            && (forall a, b :: 0 <= a < b < |out| ==> out[a].member != out[b].member)
            && (forall l :: l in out ==> l.member in hashes)
            && (forall i, l: Letter :: 0 <= i < |hashes| && l.member == hashes[i] ==>
                  (l in out <==> LetterFor(j.(cache := moments[i]), hashes[i]) == Some(l)))
  {
    hide LetterFor;
    if |hashes| > 0 {
      var n := |hashes| - 1;
      var front := FanOver(j, hashes[..n], moments[..n]);
      OneLetterEachOver(j, hashes[..n], moments[..n]);
      LetterNames(j.(cache := moments[n]), hashes[n]);
      assert forall a :: 0 <= a < |front| ==> front[a] in front;
      assert hashes[n] !in hashes[..n];
      var out := FanOver(j, hashes, moments);
      forall i, l: Letter | 0 <= i < |hashes| && l.member == hashes[i]
        ensures l in out <==> LetterFor(j.(cache := moments[i]), hashes[i]) == Some(l)
      {
        if i < n {
          assert hashes[..n][i] == hashes[i] && moments[..n][i] == moments[i];
        }
      }
    }
  }

  lemma LetterNames(j: Job, h: Bytes)
    ensures LetterFor(j, h).Some? ==> LetterFor(j, h).value.member == h
  {
  }

  /** Whatever order the roster is walked in, each member with a letter gets exactly that
      one, and nobody else gets anything. */
  lemma {:induction false} OneLetterEach(j: Job, hashes: seq<Bytes>)
    requires forall a, b :: 0 <= a < b < |hashes| ==> hashes[a] != hashes[b]
    ensures var out := Fan(j, hashes);
            && (forall a, b :: 0 <= a < b < |out| ==> out[a].member != out[b].member)
            && (forall l :: l in out <==> l.member in hashes && LetterFor(j, l.member) == Some(l))
  {
    if |hashes| > 0 {
      var front := hashes[..|hashes| - 1];
      OneLetterEach(j, front);
      var out := Fan(j, front);
      assert forall l :: l in out ==> l.member in front;
      assert forall a :: 0 <= a < |out| ==> out[a] in out;
      assert hashes == front + [hashes[|hashes| - 1]];
    }
  }

  /** Who is written to: every active member who is not the sender, whose hash is an
      address, who has a view of every resolved annotation target, and who is not
      text-only with nothing to read. */
  lemma WrittenToExactly(j: Job, h: Bytes)
    requires j.plan.Some? ==> j.fields.Some? && Canonical(j.fields.value)
                              && forall n :: n in j.plan.value.dicts ==> TargetKey(j.fields.value, n).Some?
    ensures LetterFor(j, h).Some? <==>
              && h != j.sender && Address(h)
              && !(h in j.textOnly && j.body == [])
              && (j.plan.Some? ==> forall n :: n in j.plan.value.dicts ==>
                RawView(j.cache, j.plan.value.dicts[n], h).Some?)
  {
    hide Bindable, Retargeted, Rebound, Canonical, RawView;
    if j.plan.Some? {
      var dicts := Sighted(j.plan.value.dicts, j.cache, h);
      RoundTrip.BindableExactly(j.fields.value, dicts);
      assert forall n :: n in j.plan.value.dicts ==> dicts[n] == RawView(j.cache, j.plan.value.dicts[n], h);
    }
  }

  /** A member's letter depends on the cache through that member's own views only, so it is the
      same whatever views of others are registered while the fan-out runs. */
  lemma LetterIsLocal(j: Job, later: M.Cache, h: Bytes)
    requires forall b: M.Bubble :: M.ViewFor(later, b, h) == M.ViewFor(j.cache, b, h)
    ensures LetterFor(j.(cache := later), h) == LetterFor(j, h)
  {
    if j.plan.Some? {
      var dicts := j.plan.value.dicts;
      assert forall b: M.Bubble :: RawView(later, b, h) == RawView(j.cache, b, h);
      assert Sighted(dicts, later, h) == Sighted(dicts, j.cache, h);
    }
  }

  // ---- The loop on live maps -----------------------------------------------

  datatype Post = Post(to: Bytes, body: Bytes, fields: Option<FieldTable>)

  /** Does this queued message denote that letter right now? */
  ghost predicate Shows(p: Post, l: Letter)
    reads if p.fields.Some? then {p.fields.value} + Refs(p.fields.value.m) else {}
  {
    && Decode(l.member) == Some(p.to) && p.body == l.body
    && p.fields.Some? == l.fields.Some?
    && (p.fields.Some? ==> View(p.fields.value) == l.fields.value)
  }

  ghost function JobOf(sender: Bytes, body: Bytes, fields: Option<FieldTable>, plan: Option<Plan>,
                       cache: IdCache, textOnly: set<Bytes>): Job
    reads cache, if fields.Some? then {fields.value} + Refs(fields.value.m) else {}
  {
    Job(sender, body, if fields.Some? then Some(View(fields.value)) else None, plan, cache.Model(), textOnly)
  }

  /** The loop body for one roster hash. */
  method Write(h: Bytes, sender: Bytes, body: Bytes, fields: Option<FieldTable>, plan: Option<Plan>,
               cache: IdCache, textOnly: set<Bytes>)
    returns (post: Option<Post>)
    requires plan.Some? ==> fields.Some? && Canonical(View(fields.value))
    ensures var l := LetterFor(JobOf(sender, body, fields, plan, cache, textOnly), h);
            post.Some? == l.Some? && (post.Some? ==> Shows(post.value, l.value))
  {
    if h == sender {
      return None;
    }
    var raw := Decode(h);
    if raw.None? || |raw.value| != 16 {
      return None;
    }
    var own := fields;
    if plan.Some? {
      own := RewriteFor(fields.value, plan.value, cache, h);
      if own.None? {
        return None;
      }
    }
    if h in textOnly {
      if body == [] {
        return None;
      }
      return Some(Post(raw.value, body, None));
    }
    return Some(Post(raw.value, body, own));
  }

  /** `forwardToRoster`. `caches[i]` is the cache as round `i` of the loop finds it, since
      workers may register views between two rounds. The loop may change nothing, so the input
      maps are intact afterwards and each letter is a function of the input, its member and
      that member's views at its own round. `job` names the input, its own cache
      is not read; `moments` are the states of the caches. */
  method ForwardToRoster(hashes: seq<Bytes>, sender: Bytes, body: Bytes, fields: Option<FieldTable>,
                         plan: Option<Plan>, caches: seq<IdCache>, textOnly: set<Bytes>,
                         ghost job: Job, ghost moments: seq<M.Cache>)
    returns (posts: seq<Post>)
    requires |caches| == |hashes| == |moments|
    requires forall i :: 0 <= i < |caches| ==> caches[i].Model() == moments[i]
    requires plan.Some? ==> fields.Some? && Canonical(View(fields.value))
    requires job == Job(sender, body, if fields.Some? then Some(View(fields.value)) else None, plan, job.cache,
             textOnly)
    ensures var letters := FanOver(job, hashes, moments);
            |posts| == |letters| && forall i :: 0 <= i < |posts| ==> Shows(posts[i], letters[i])
  {
    hide LetterFor, Canonical;
    ghost var f := if fields.Some? then View(fields.value) else map[];
    ghost var letters := [];
    posts := [];
    for i := 0 to |hashes|
      invariant forall k :: 0 <= k < |caches| ==> caches[k].Model() == moments[k]
      invariant fields.Some? ==> View(fields.value) == f
      invariant letters == FanOver(job, hashes[..i], moments[..i])
      invariant |posts| == |letters| && forall k :: 0 <= k < |posts| ==> Shows(posts[k], letters[k])
    {
      assert hashes[..i + 1][..i] == hashes[..i] && moments[..i + 1][..i] == moments[..i];
      var post := Write(hashes[i], sender, body, fields, plan, caches[i], textOnly);
      assert caches[i].Model() == moments[i] && (fields.Some? ==> View(fields.value) == f);
      if post.Some? {
        posts := posts + [post.value];
        letters := letters + [LetterFor(job.(cache := moments[i]), hashes[i]).value];
      }
    }
    assert hashes[..|hashes|] == hashes && moments[..|hashes|] == moments;
  }
}
