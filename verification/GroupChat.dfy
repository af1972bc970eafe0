/** One chat message from an active member to the group: the roster, the inbound path and the
    fan-out together. */
module GroupChat {
  import opened Prelude
  import opened Hex
  import opened Fields
  import opened Rewrite
  import opened RewriteHeap
  import opened Attachments
  import opened Planning
  import opened Fanout
  import opened Inbound
  import opened Letters
  import M = IdMap
  import opened IdCache
  import Members
  import opened Roster

  /** Who is owed a letter: active, not the sender, an address, a view of every resolved
      annotation target, and something to read. */
  ghost predicate Owed(j: Job, active: set<Bytes>, h: Bytes) {
    && h in active && h != j.sender && Decode(h).Some? && |Decode(h).value| == 16
    && !(h in j.textOnly && j.body == [])
    && (j.plan.Some? ==> forall n :: n in j.plan.value.dicts ==> RawView(j.cache, j.plan.value.dicts[n], h).Some?)
  }

  /** The job that an inbound message makes: the surviving fields with the reactor's stamp, or
      none; and a plan whenever one of them resolves, for exactly what resolves. */
  ghost predicate JobFor(j: Job, f: FieldMap, s: Setting, sizes: Sizes, m: Chat, c: M.Cache, now: Time) {
    var f1 := Filtered(f, s.policy, sizes);
    && (j.fields.None? <==> f1 == map[]) && (j.fields.Some? ==> j.fields.value == Stamped(f1, m.sender))
    && (j.plan.None? <==> Resolve(c, now, f1) == Plan(map[], None))
    && (j.plan.Some? ==> j.plan.value == Resolve(c, now, f1))
  }

  lemma MakesJob(j: Job, f: FieldMap, s: Setting, sizes: Sizes, m: Chat, c: M.Cache, now: Time)
    ensures JobFor(j, f, s, sizes, m, c, now) <==>
            j.fields == Wrap(Prepared(f, s, sizes, m)) && j.plan == PlanFor(c, now, Filtered(f, s.policy, sizes))
  {
    hide Stamped, Filtered, DictHit, ReplyHit;
    var f1 := Filtered(f, s.policy, sizes);
    StampKeepsNil(f1, m.sender);
    PlanOfNothing(c, now);
  }

  lemma PlanOfNothing(c: M.Cache, now: Time)
    ensures Resolve(c, now, map[]) == Plan(map[], None)
  {
    assert Resolve(c, now, map[]).dicts == map[];
  }

  lemma OwedExactly(j: Job, f: FieldMap, s: Setting, sizes: Sizes, m: Chat, c: M.Cache, now: Time, h: Bytes)
    requires Accepted(s.policy) && Canonical(f) && JobFor(j, f, s, sizes, m, c, now)
    ensures LetterFor(j, h).Some? <==> Owed(j, {h}, h)
    ensures LetterFor(j, h).Some? ==> Carries(j, h, LetterFor(j, h).value)
  {
    hide Resolve, Filtered, Stamped, Canonical, LetterFor, RawView, Carries, JobFor;
    MakesJob(j, f, s, sizes, m, c, now);
    var f1 := Filtered(f, s.policy, sizes);
    FilterDropsForgeries(f, s.policy, sizes);
    PlanFits(f1, m.sender, c, now);
    StampKeepsNil(f1, m.sender);
    WrittenToExactly(j, h);
    LetterCarries(j, h);
  }

  /** Exactly these letters: one for each member owed one, none for anybody else, and every
      attribution in them is honest. What each carries is said by `Carries`. */
  lemma ExactlyTheseLetters(j: Job, f: FieldMap, s: Setting, sizes: Sizes, m: Chat, c: M.Cache, now: Time,
                            hashes: seq<Bytes>, active: set<Bytes>)
    requires Accepted(s.policy) && Canonical(f) && JobFor(j, f, s, sizes, m, c, now) && Lists(hashes, active)
    ensures var out := Fan(j, hashes);
            && (forall a, b :: 0 <= a < b < |out| ==> out[a].member != out[b].member)
            && (forall l :: l in out ==> Owed(j, active, l.member) && LetterFor(j, l.member) == Some(l))
            && (forall l :: l in out ==> Carries(j, l.member, l))
            && (forall h :: Owed(j, active, h) ==> LetterFor(j, h).Some? && LetterFor(j, h).value in out)
            && (forall l :: l in out && l.fields.Some? ==> Honest(l.fields.value, m.sender))
  {
    hide LetterFor, Canonical, JobFor, Honest, Carries;
    OneLetterEach(j, hashes);
    var out := Fan(j, hashes);
    forall h
      ensures LetterFor(j, h).Some? <==> Owed(j, {h}, h)
      ensures LetterFor(j, h).Some? ==> Carries(j, h, LetterFor(j, h).value)
      ensures LetterFor(j, h).Some? ==> LetterFor(j, h).value.member == h
      ensures LetterFor(j, h).Some? && LetterFor(j, h).value.fields.Some? ==>
                Honest(LetterFor(j, h).value.fields.value, m.sender)
    {
      OwedExactly(j, f, s, sizes, m, c, now, h);
      LetterNames(j, h);
      MakesJob(j, f, s, sizes, m, c, now);
      LettersHonest(f, s, sizes, m, c, now, j, h);
    }
  }

  function ActiveSet(users: map<Bytes, Members.User>): set<Bytes> { set h | h in users && !users[h].paused }

  function TextOnlySet(users: map<Bytes, Members.User>): set<Bytes> { set h | h in users && users[h].textOnly }

  /** What one chat message comes to: which fields were noted as oversized, whether there was
      anything to send, the job it made, and the letters, each owed and each honest. */
  ghost predicate Outcome(letters: seq<Letter>, drops: seq<Key>, job: Option<Job>, f: FieldMap, sizes: Sizes, m: Chat,
                          policy: Policy, ttl: Time, users: map<Bytes, Members.User>,
                          c: M.Cache, c': M.Cache, b: M.Bubble, now: Time)
  {
    && Lists(drops, Dropped(f.Keys, policy, sizes))
    && (job.None? <==> Body(m, drops) == [] && Filtered(f, policy, sizes) == map[])
    && (job.None? ==> letters == [] && c' == c)
    && (job.Some? ==>
          && JobFor(job.value, f, Setting(policy, ttl, [], {}), sizes, m, c, now)
          && job.value.cache == c'
          && Recorded(c, c', Primary(m.content, Filtered(f, policy, sizes).Keys), b, m, ttl, now)
          && SenderSees(c, c', Primary(m.content, Filtered(f, policy, sizes).Keys), b, m, ttl, now)
          && job.value.sender == Encode(m.sender) && job.value.body == Body(m, drops)
          && job.value.textOnly == TextOnlySet(users)
          && (forall x, y :: 0 <= x < y < |letters| ==> letters[x].member != letters[y].member)
          && (forall l :: l in letters ==> LetterFor(job.value, l.member) == Some(l))
          && (forall l :: l in letters ==> Carries(job.value, l.member, l))
          && (forall h :: (exists l :: l in letters && l.member == h) <==> Owed(job.value, ActiveSet(users), h))
          && (forall l :: l in letters && l.fields.Some? ==> Honest(l.fields.value, m.sender)))
  }

  /** The whole of it: the roster says who is active and who is text-only, the inbound path
      makes the job, and the posts are exactly the letters it owes. */
  method ChatToGroup(r: Roster, t: FieldTable, sizes: Sizes, m: Chat, policy: Policy, ttl: Time,
                     cache: IdCache, b: M.Bubble, now: Time)
    returns (posts: seq<Post>, drops: seq<Key>, ghost job: Option<Job>, ghost letters: seq<Letter>)
    requires Canonical(View(t)) && t.m.Keys <= sizes.Keys && Accepted(policy)
    requires M.Valid(cache.Model()) && Solo(cache.Model()) && b !in cache.views
    modifies cache
    ensures |posts| == |letters| && forall i :: 0 <= i < |posts| ==> Shows(posts[i], letters[i])
    ensures Outcome(letters, drops, job, old(View(t)), sizes, m, policy, ttl, r.users,
                    old(cache.Model()), cache.Model(), b, now)
  {
    hide Canonical, Filtered, Stamped, PlanFor, Honest, LetterFor, Owed, Fan, Body, Shows, Recorded, Solo,
      Accepted, Primary, Dropped, Carries, SenderSees, JobFor;
    ghost var f, c := View(t), cache.Model();
    assert f.Keys == t.m.Keys;
    ghost var active := ActiveSet(r.users);
    var hashes := r.ActiveHashes();
    assert View(t) == f && cache.Model() == c;
    var textOnly := TextOnlySet(r.users);
    var s := Setting(policy, ttl, hashes, textOnly);
    posts, drops, job := RelayChat(t, sizes, m, s, cache, b, now);
    letters := if job.None? then [] else Fan(job.value, hashes);
    if job.Some? {
      MakesJob(job.value, f, s, sizes, m, c, now);
      MakesJob(job.value, f, Setting(policy, ttl, [], {}), sizes, m, c, now);
      ExactlyTheseLetters(job.value, f, s, sizes, m, c, now, hashes, active);
      OwedMeansLetter(job.value, letters, active);
    }
  }

  lemma OwedMeansLetter(j: Job, out: seq<Letter>, active: set<Bytes>)
    requires forall l :: l in out ==> Owed(j, active, l.member) && LetterFor(j, l.member) == Some(l)
    requires forall h :: Owed(j, active, h) ==> LetterFor(j, h).Some? && LetterFor(j, h).value in out
    ensures forall h :: (exists l :: l in out && l.member == h) <==> Owed(j, active, h)
  {
    hide Owed;
    forall h | Owed(j, active, h)
      ensures exists l :: l in out && l.member == h
    {
      LetterNames(j, h);
      assert LetterFor(j, h).value in out;
    }
  }
}
