/** A member's chat message on its way to the group: the non-command half of
    `onLXMFReceived` (internal/service/inbox.go), after the membership checks. */
module Inbound {
  import opened Prelude
  import opened Hex
  import opened Fields
  import opened Rewrite
  import opened RewriteHeap
  import opened Attachments
  import opened Planning
  import opened Fanout
  import M = IdMap
  import opened IdCache

  /** What arrives, plus the formatted texts: the "[nick] " prefix and one note per
      oversized field. */
  datatype Chat = Chat(sender: Bytes, messageId: Bytes, content: Bytes, prefix: Bytes, notes: map<Key, Bytes>)

  /** The part of the service's state and configuration that the path reads. */
  datatype Setting = Setting(policy: Policy, ttl: Time, hashes: seq<Bytes>, textOnly: set<Bytes>)

  /** Notes are appended with a space, or stand alone. */
  function Annotated(body: Bytes, notes: map<Key, Bytes>, drops: seq<Key>): Bytes {
    if |drops| == 0 then body
    else
      var front := Annotated(body, notes, drops[..|drops| - 1]);
      var note := if drops[|drops| - 1] in notes then notes[drops[|drops| - 1]] else [];
      if front == [] then note else front + [32] + note
  }

  function Body(m: Chat, drops: seq<Key>): Bytes {
    Annotated(if m.content != [] then m.prefix + m.content else [], m.notes, drops)
  }

  function NoteFor(notes: map<Key, Bytes>, k: Key): Bytes { if k in notes then notes[k] else [] }

  /** The sender's text comes first, untouched, and each note stands somewhere after it. */
  lemma {:induction false} NotesFollow(body: Bytes, notes: map<Key, Bytes>, drops: seq<Key>, i: nat) returns (at: nat)
    requires i < |drops|
    ensures var out := Annotated(body, notes, drops);
            var note := NoteFor(notes, drops[i]);
            && body <= out && |body| <= at && at + |note| <= |out| && out[at..at + |note|] == note
  {
    var n := |drops| - 1;
    var front := Annotated(body, notes, drops[..n]);
    TextFirst(body, notes, drops[..n]);
    TextFirst(body, notes, drops);
    if i == n {
      at := if front == [] then 0 else |front| + 1;
    } else {
      at := NotesFollow(body, notes, drops[..n], i);
    }
  }

  lemma {:induction false} TextFirst(body: Bytes, notes: map<Key, Bytes>, drops: seq<Key>)
    ensures body <= Annotated(body, notes, drops)
  {
    if |drops| > 0 {
      TextFirst(body, notes, drops[..|drops| - 1]);
    }
  }

  /** What goes out: the prefix and the text when there is text, and then the notes; with no
      note, nothing more; with no text and no note, nothing at all. */
  lemma BodyCarriesText(m: Chat, drops: seq<Key>)
    ensures m.content != [] ==> m.prefix + m.content <= Body(m, drops)
    ensures drops == [] ==> Body(m, drops) == if m.content != [] then m.prefix + m.content else []
  {
    TextFirst(if m.content != [] then m.prefix + m.content else [], m.notes, drops);
  }

  method ComposeBody(m: Chat, drops: seq<Key>) returns (body: Bytes)
    ensures body == Body(m, drops)
  {
    body := if m.content != [] then m.prefix + m.content else [];
    ghost var first := body;
    for i := 0 to |drops|
      invariant body == Annotated(first, m.notes, drops[..i])
    {
      assert drops[..i + 1][..i] == drops[..i];
      var note := if drops[i] in m.notes then m.notes[drops[i]] else [];
      body := if body == [] then note else body + [32] + note;
    }
    assert drops[..|drops|] == drops;
  }

  predicate Idle(p: Plan) { p.dicts == map[] && p.reply.None? }

  function Useful(p: Plan): Option<Plan> { if Idle(p) then None else Some(p) }

  /** The plan is made from the filtered fields, before the stamp. */
  ghost function PlanFor(c: M.Cache, now: Time, f: FieldMap): Option<Plan> {
    if f == map[] then None else Useful(Resolve(c, now, f))
  }

  ghost function Wrap(f: FieldMap): Option<FieldMap> { if f == map[] then None else Some(f) }

  /** The cache once a primary bubble, if this is one, has its sender's view. */
  function Announced(c: M.Cache, primary: bool, b: M.Bubble, m: Chat, ttl: Time, now: Time): M.Cache {
    if primary && ttl > 0
    then M.RegisterView(M.NewBubble(c, b, now + ttl), b, Encode(m.sender), Encode(m.messageId), now)
    else c
  }

  /** Lookups, then the announcement of a primary bubble, lead from one cache to the other. */
  ghost predicate Recorded(c: M.Cache, c': M.Cache, primary: bool, b: M.Bubble, m: Chat, ttl: Time, now: Time) {
    exists mid :: SameHits(c, mid, now) && c' == Announced(mid, primary, b, m, ttl, now)
  }

  /** What the announcement leaves behind: the new bubble, alive until its time is up, has its
      sender's view (the inbound message's own id) and no other; nothing else has changed. */
  predicate SenderSees(c: M.Cache, c': M.Cache, primary: bool, b: M.Bubble, m: Chat, ttl: Time, now: Time) {
    if primary && ttl > 0 then
      && M.ViewsOf(c', b) == (if m.messageId == [] then map[] else map[Encode(m.sender) := Encode(m.messageId)])
      && M.ExpiryOf(c', b) == now + ttl
      && (forall x :: x in c.views && x != b ==> x in c'.views && c'.views[x] == c.views[x])
      && (forall x :: x in c'.views ==> x == b || x in c.views)
      && (forall x :: x in c.expires && x != b ==> x in c'.expires && c'.expires[x] == c.expires[x])
    else c'.views == c.views && c'.expires == c.expires
  }

  lemma AnnouncedSees(c: M.Cache, primary: bool, b: M.Bubble, m: Chat, ttl: Time, now: Time)
    ensures SenderSees(c, Announced(c, primary, b, m, ttl, now), primary, b, m, ttl, now)
  {
    if primary && ttl > 0 {
      var c1 := M.NewBubble(c, b, now + ttl);
      var r, id := Encode(m.sender), Encode(m.messageId);
      M.EvictFrame(c1, now);
      M.CapFrame(M.Record(M.EvictExpired(c1, now), b, r, id));
      assert map[][r := id] == map[r := id];
    }
  }

  /** And a reaction to the message resolves at once: its id leads to the new bubble, whatever
      the cap, unless another bubble already has that id. */
  lemma OwnMessageResolves(c: M.Cache, b: M.Bubble, m: Chat, ttl: Time, now: Time)
    requires M.Valid(c) && b !in c.views && ttl > 0 && m.messageId != []
    requires forall x :: x in c.views ==> Encode(m.messageId) !in c.views[x].Values
    ensures Hit(Announced(c, true, b, m, ttl, now), Encode(m.messageId), now) == Some(b)
  {
    var c1 := M.NewBubble(c, b, now + ttl);
    var r, id := Encode(m.sender), Encode(m.messageId);
    M.CreateValid(c, b, now + ttl);
    M.EvictValid(c1, now);
    M.EvictFrame(c1, now);
    var c2 := M.EvictExpired(c1, now);
    var c3 := M.Record(c2, b, r, id);
    M.RecordValid(c2, b, r, id);
    assert map[][r := id] == map[r := id];
    M.NewestSurvives(c3, b, id);
    M.CapFrame(c3);
  }

  lemma RecordedSees(c: M.Cache, c': M.Cache, primary: bool, b: M.Bubble, m: Chat, ttl: Time, now: Time)
    requires Recorded(c, c', primary, b, m, ttl, now)
    ensures SenderSees(c, c', primary, b, m, ttl, now)
  {
    hide Announced;
    var mid :| SameHits(c, mid, now) && c' == Announced(mid, primary, b, m, ttl, now);
    AnnouncedSees(mid, primary, b, m, ttl, now);
  }

  method MakePlan(t: Option<FieldTable>, cache: IdCache, now: Time) returns (plan: Option<Plan>)
    requires t.Some? ==> Canonical(View(t.value)) && t.value.m != map[]
    requires M.Valid(cache.Model()) && Solo(cache.Model())
    modifies cache`byMsgId, cache`lru
    ensures plan == PlanFor(old(cache.Model()), now, Denotes(t))
    ensures M.Valid(cache.Model()) && cache.views == old(cache.views)
    ensures SameHits(old(cache.Model()), cache.Model(), now)
  {
    if t.None? {
      return None;
    }
    assert View(t.value).Keys == t.value.m.Keys;
    var p := BuildRewrite(t.value, cache, now);
    return if Idle(p) then None else Some(p);
  }

  method AnnounceBubble(primary: bool, cache: IdCache, b: M.Bubble, m: Chat, ttl: Time, now: Time)
    requires M.Valid(cache.Model()) && b !in cache.views
    modifies cache
    ensures cache.Model() == Announced(old(cache.Model()), primary, b, m, ttl, now)
    ensures M.Valid(cache.Model())
  {
    if primary && ttl > 0 {
      M.CreateValid(cache.Model(), b, now + ttl);
      cache.NewBubble(b, ttl, now);
      cache.RegisterView(b, Encode(m.sender), Encode(m.messageId), now);
    }
  }

  /** The fields that would reach the queue, before per-recipient rewriting. */
  ghost function Prepared(f: FieldMap, s: Setting, sizes: Sizes, m: Chat): FieldMap {
    Stamped(Filtered(f, s.policy, sizes), m.sender)
  }

  lemma PreparedHonest(f: FieldMap, s: Setting, sizes: Sizes, m: Chat)
    requires Accepted(s.policy)
    ensures Honest(Prepared(f, s, sizes, m), m.sender)
    ensures Canonical(f) ==> Canonical(Prepared(f, s, sizes, m))
  {
    FilterDropsForgeries(f, s.policy, sizes);
    StampHonest(Filtered(f, s.policy, sizes), m.sender);
  }

  /** Whatever the sender put in, every letter of the fan-out carries an attribution
      exactly when it carries a reaction, and then it is the sender's. */
  lemma LettersHonest(f: FieldMap, s: Setting, sizes: Sizes, m: Chat, c: M.Cache, now: Time, j: Job, h: Bytes)
    requires Accepted(s.policy)
    requires j.fields == Wrap(Prepared(f, s, sizes, m)) && j.plan == PlanFor(c, now, Filtered(f, s.policy, sizes))
    ensures var l := LetterFor(j, h); l.Some? && l.value.fields.Some? ==> Honest(l.value.fields.value, m.sender)
  {
    hide Honest, Rewritten, Resolve, Filtered, Stamped, Accepted;
    PreparedHonest(f, s, sizes, m);
    if j.plan.Some? && j.fields.Some? {
      var sight := SightOf(j.plan.value, j.cache, h);
      forall n | n in sight.dicts
        ensures IsDict(n)
      {
        PlanTargets(Filtered(f, s.policy, sizes), c, now, n);
      }
      if Rewritten(j.fields.value, sight).Some? {
        RewriteKeepsHonest(j.fields.value, sight, m.sender);
      }
    }
  }

  /** The stamp does not hide a target the plan found. */
  lemma StampKeepsTarget(f: FieldMap, sender: Bytes, n: int)
    requires Canonical(Stamped(f, sender)) && IsDict(n) && TargetKey(f, n).Some?
    ensures TargetKey(Stamped(f, sender), n) == TargetKey(f, n)
  {
    var k := TargetKey(f, n).value;
    assert k != TYPE_KEY && k != DATA_KEY;
    FindUnique(Stamped(f, sender).Keys, n, k);
  }

  /** No attribution key, in any key type. */
  predicate Unattributed(f: FieldMap) {
    forall k :: k in f && KeyAsInt(k).Some? ==> !IsAttribution(KeyAsInt(k).value)
  }

  lemma StampKeepsReply(f: FieldMap, sender: Bytes)
    requires Canonical(Stamped(f, sender)) && ReplyHex(f).Some?
    ensures ReplyHex(Stamped(f, sender)) == ReplyHex(f)
  {
    var k := Find(f.Keys, REPLY_TO).value;
    assert k != TYPE_KEY && k != DATA_KEY;
    FindUnique(Stamped(f, sender).Keys, REPLY_TO, k);
  }

  lemma PlanTargets(f: FieldMap, c: M.Cache, now: Time, n: int)
    requires PlanFor(c, now, f).Some? && n in PlanFor(c, now, f).value.dicts
    ensures IsDict(n) && TargetKey(f, n).Some?
  {
    ResolveEntry(c, now, f, n);
  }

  /** A plan made before the stamp is a plan for the stamped map. */
  lemma PlanFits(f: FieldMap, sender: Bytes, c: M.Cache, now: Time)
    requires Canonical(f) && Unattributed(f)
    ensures Canonical(Stamped(f, sender))
    ensures forall n :: PlanFor(c, now, f).Some? && n in PlanFor(c, now, f).value.dicts ==>
            IsDict(n) && TargetKey(Stamped(f, sender), n).Some?
    ensures PlanFor(c, now, f).Some? && PlanFor(c, now, f).value.reply.Some? ==> ReplyHex(Stamped(f, sender)).Some?
  {
    StampHonest(f, sender);
    if PlanFor(c, now, f).Some? && PlanFor(c, now, f).value.reply.Some? {
      StampKeepsReply(f, sender);
    }
    forall n | PlanFor(c, now, f).Some? && n in PlanFor(c, now, f).value.dicts
      ensures IsDict(n) && TargetKey(Stamped(f, sender), n).Some?
    {
      PlanTargets(f, c, now, n);
      StampKeepsTarget(f, sender, n);
    }
  }

  lemma RecordedVia(c: M.Cache, mid: M.Cache, c': M.Cache, primary: bool, b: M.Bubble, m: Chat, ttl: Time, now: Time)
    requires SameHits(c, mid, now) && c' == Announced(mid, primary, b, m, ttl, now)
    ensures Recorded(c, c', primary, b, m, ttl, now)
  {
  }

  /** Resolve the annotations, then open a bubble for a primary message. */
  method PlanAndAnnounce(fwd: Option<FieldTable>, m: Chat, s: Setting, cache: IdCache, b: M.Bubble, now: Time)
    returns (plan: Option<Plan>)
    requires fwd.Some? ==> fwd.value.m != map[]
    requires Canonical(Denotes(fwd))
    requires M.Valid(cache.Model()) && Solo(cache.Model()) && b !in cache.views
    modifies cache
    ensures plan == PlanFor(old(cache.Model()), now, Denotes(fwd))
    ensures Recorded(old(cache.Model()), cache.Model(), Primary(m.content, Denotes(fwd).Keys), b, m, s.ttl, now)
    ensures M.Valid(cache.Model())
  {
    hide Announced, Primary, Recorded, SameHits, PlanFor;
    ghost var f := Denotes(fwd);
    ghost var keys := if fwd.Some? then fwd.value.m.Keys else {};
    assert f.Keys == keys;
    plan := MakePlan(fwd, cache, now);
    assert Denotes(fwd) == f;
    var primary := IsPrimaryBubble(m.content, fwd);
    assert primary == Primary(m.content, keys);
    ghost var mid := cache.Model();
    AnnounceBubble(primary, cache, b, m, s.ttl, now);
    RecordedVia(old(cache.Model()), mid, cache.Model(), primary, b, m, s.ttl, now);
    assert Denotes(fwd) == f;
  }

  /** Stamp, then fan out: the plan was made before the stamp and still fits. */
  method StampAndSend(fwd: Option<FieldTable>, plan: Option<Plan>, body: Bytes, m: Chat, s: Setting, cache: IdCache)
    returns (posts: seq<Post>, ghost job: Job)
    requires Canonical(Denotes(fwd)) && Canonical(Stamped(Denotes(fwd), m.sender)) && (plan.Some? ==> fwd.Some?)
    modifies if fwd.Some? then {fwd.value} else {}
    ensures job == Job(Encode(m.sender), body, if fwd.Some? then Some(Stamped(old(Denotes(fwd)), m.sender)) else None,
                       plan, cache.Model(), s.textOnly)
    ensures |posts| == |Fan(job, s.hashes)|
    ensures forall i :: 0 <= i < |posts| ==> Shows(posts[i], Fan(job, s.hashes)[i])
  {
    hide Stamped, Fan;
    ghost var f := Denotes(fwd);
    assert f.Keys == if fwd.Some? then fwd.value.m.Keys else {};
    var did := StampReactorIdentity(fwd, m.sender);
    assert Denotes(fwd) == Stamped(f, m.sender);
    job := JobOf(Encode(m.sender), body, fwd, plan, cache, s.textOnly);
    var caches := seq(|s.hashes|, _ => cache);
    ghost var moments := seq(|s.hashes|, _ => job.cache);
    posts := ForwardToRoster(s.hashes, Encode(m.sender), body, fwd, plan, caches, s.textOnly, job, moments);
    FanOverOne(job, s.hashes, moments);
  }

  /** From the filtered fields to the queue. */
  method PlanAndSend(fwd: Option<FieldTable>, body: Bytes, m: Chat, s: Setting, cache: IdCache, b: M.Bubble, now: Time)
    returns (posts: seq<Post>, ghost job: Job)
    requires fwd.Some? ==> fwd.value.m != map[]
    requires Canonical(Denotes(fwd)) && Unattributed(Denotes(fwd))
    requires M.Valid(cache.Model()) && Solo(cache.Model()) && b !in cache.views
    modifies cache, if fwd.Some? then {fwd.value} else {}
    ensures job == Job(Encode(m.sender), body, if fwd.Some? then Some(Stamped(old(Denotes(fwd)), m.sender)) else None,
                       PlanFor(old(cache.Model()), now, old(Denotes(fwd))), cache.Model(), s.textOnly)
    ensures Recorded(old(cache.Model()), cache.Model(), Primary(m.content, old(Denotes(fwd)).Keys), b, m, s.ttl, now)
    ensures |posts| == |Fan(job, s.hashes)|
    ensures forall i :: 0 <= i < |posts| ==> Shows(posts[i], Fan(job, s.hashes)[i])
    ensures M.Valid(cache.Model())
  {
    hide Stamped, Recorded, Primary, Fan, Canonical, Unattributed;
    ghost var f := Denotes(fwd);
    PlanFits(f, m.sender, cache.Model(), now);
    var plan := PlanAndAnnounce(fwd, m, s, cache, b, now);
    assert Denotes(fwd) == f;
    posts, job := StampAndSend(fwd, plan, body, m, s, cache);
  }

  /** The operator's policy and the text that goes out. */
  method Prepare(t: FieldTable, sizes: Sizes, m: Chat, s: Setting)
    returns (fwd: Option<FieldTable>, drops: seq<Key>, body: Bytes)
    requires Canonical(View(t)) && t.m.Keys <= sizes.Keys && Accepted(s.policy)
    ensures fwd.Some? ==> fresh(fwd.value) && fwd.value.m != map[]
    ensures Denotes(fwd) == Filtered(View(t), s.policy, sizes)
    ensures Canonical(Denotes(fwd)) && Unattributed(Denotes(fwd)) && (fwd.None? <==> Denotes(fwd) == map[])
    ensures Lists(drops, Dropped(t.m.Keys, s.policy, sizes)) && body == Body(m, drops)
  {
    FilterDropsForgeries(View(t), s.policy, sizes);
    var refused;
    fwd, drops, refused := FilterAttachments(t, s.policy, sizes);
    assert Denotes(fwd) == Filtered(old(View(t)), s.policy, sizes);
    body := ComposeBody(m, drops);
    NilIffEmpty(fwd);
  }

  /** The whole path. Its contract names the one job that is fanned out; `LettersHonest`,
      `OneLetterEach` and `WrittenToExactly` say what follows from it. The inbound map and
      its inner maps are not in the frame, so they come out as they went in. */
  method RelayChat(t: FieldTable, sizes: Sizes, m: Chat, s: Setting, cache: IdCache, b: M.Bubble, now: Time)
    returns (posts: seq<Post>, drops: seq<Key>, ghost job: Option<Job>)
    requires Canonical(View(t)) && t.m.Keys <= sizes.Keys && Accepted(s.policy)
    requires M.Valid(cache.Model()) && Solo(cache.Model()) && b !in cache.views
    modifies cache
    ensures Lists(drops, Dropped(t.m.Keys, s.policy, sizes))
    ensures job.None? <==> Body(m, drops) == [] && Filtered(old(View(t)), s.policy, sizes) == map[]
    ensures job.Some? ==>
              && job.value.fields == Wrap(Prepared(old(View(t)), s, sizes, m))
              && job.value.plan == PlanFor(old(cache.Model()), now, Filtered(old(View(t)), s.policy, sizes))
              && job.value.sender == Encode(m.sender) && job.value.body == Body(m, drops)
              && job.value.cache == cache.Model() && job.value.textOnly == s.textOnly
    ensures job.Some? ==> Recorded(old(cache.Model()), cache.Model(),
                                   Primary(m.content, Filtered(old(View(t)), s.policy, sizes).Keys), b, m, s.ttl, now)
    ensures job.Some? ==> SenderSees(old(cache.Model()), cache.Model(),
                                     Primary(m.content, Filtered(old(View(t)), s.policy, sizes).Keys), b, m, s.ttl, now)
    ensures job.None? ==> cache.Model() == old(cache.Model())
    ensures |posts| == if job.None? then 0 else |Fan(job.value, s.hashes)|
    ensures forall i :: 0 <= i < |posts| ==> Shows(posts[i], Fan(job.value, s.hashes)[i])
    ensures M.Valid(cache.Model())
  {
    hide Canonical, Unattributed, Fan, Shows, Recorded, PlanFor, Stamped, Filtered, Accepted, Solo, SenderSees, Primary;
    ghost var f := View(t);
    ghost var f1 := Filtered(f, s.policy, sizes);
    StampKeepsNil(f1, m.sender);
    var fwd, body;
    fwd, drops, body := Prepare(t, sizes, m, s);
    assert View(t) == f;
    assert Denotes(fwd) == f1;
    if body == [] && fwd.None? {
      return [], drops, None;
    }
    ghost var j;
    posts, j := PlanAndSend(fwd, body, m, s, cache, b, now);
    RecordedSees(old(cache.Model()), cache.Model(), Primary(m.content, f1.Keys), b, m, s.ttl, now);
    job := Some(j);
  }

  lemma StampKeepsNil(f: FieldMap, sender: Bytes)
    ensures Stamped(f, sender) == map[] <==> f == map[]
  {
    if Stamped(f, sender) != f {
      assert DATA_KEY in Stamped(f, sender);
      assert Find(f.Keys, REACTION).value in f;
    }
  }

  lemma NilIffEmpty(t: Option<FieldTable>)
    requires t.Some? ==> t.value.m != map[]
    ensures t.None? <==> Denotes(t) == map[]
  {
    if t.Some? {
      assert View(t.value).Keys == t.value.m.Keys;
    }
  }
}
