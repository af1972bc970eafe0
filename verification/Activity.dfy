/** The activity fields against the event history they summarise, and what `Prune`
    therefore removes. */
module Activity {
  import opened Prelude
  import opened Hex
  import opened Members
  import opened Nickname
  import opened Authority
  import opened AuthorityRuns

  /** One thing known about a member since it last entered the roster. */
  datatype Mark =
    | WasLoaded(u: User)
    | DidJoin(t: Time)
    | WasAdded(t: Time)
    | DidSpeak(t: Time)
    | DidSend(t: Time)          // any inbound traffic
    | DidAnnounce(t: Time)      // emission time
  {
    predicate Start() { WasLoaded? || DidJoin? || WasAdded? }

    function Seen(): Time { if WasLoaded? then LastSeen(u) else t }

    function Spoke(): Option<Time> {
      if WasLoaded? then Some(LastSpoke(u)) else if DidSend? || DidAnnounce? then None else Some(t)
    }
  }

  predicate LatestSeen(ms: seq<Mark>, t: Time) {
    && (exists i :: 0 <= i < |ms| && ms[i].Seen() == t)
    && (forall i :: 0 <= i < |ms| ==> ms[i].Seen() <= t)
  }

  predicate LatestSpoke(ms: seq<Mark>, t: Time) {
    && (exists i :: 0 <= i < |ms| && ms[i].Spoke() == Some(t))
    && (forall i :: 0 <= i < |ms| && ms[i].Spoke().Some? ==> ms[i].Spoke().value <= t)
  }

  function FirstAnnounce(m: Mark): Time { if m.WasLoaded? then m.u.lastAnnounceAt else ZERO }

  /** Added by somebody else and not heard from since: no traffic at all, and no announce
      fresher than what was known when it was added. */
  predicate StillInvited(ms: seq<Mark>) {
    && |ms| > 0
    && (ms[0].WasAdded? || (ms[0].WasLoaded? && ms[0].u.invited))
    && (forall i :: 1 <= i < |ms| ==> ms[i].DidAnnounce? && ms[i].t <= FirstAnnounce(ms[0]))
  }

  /** The record says what the history says. */
  predicate Tells(u: User, ms: seq<Mark>, clock: Time) {
    && |ms| > 0 && LastSeen(u) <= clock
    && LatestSeen(ms, LastSeen(u)) && LatestSpoke(ms, LastSpoke(u))
    && (u.invited <==> StillInvited(ms))
    && (u.invited ==> u.lastAnnounceAt == FirstAnnounce(ms[0]))
  }

  predicate SameClocks(u: User, v: User) {
    && u.joinedAt == v.joinedAt && u.lastMessageAt == v.lastMessageAt && u.lastAnnounceAt == v.lastAnnounceAt
    && u.lastCommandAt == v.lastCommandAt && u.invited == v.invited
  }

  lemma TellsSame(u: User, v: User, ms: seq<Mark>, clock: Time)
    requires Tells(u, ms, clock) && SameClocks(u, v)
    ensures Tells(v, ms, clock)
  {
  }

  lemma Extends(ms: seq<Mark>, m: Mark)
    requires |ms| > 0
    ensures (ms + [m])[|ms|] == m && forall i :: 0 <= i < |ms| ==> (ms + [m])[i] == ms[i]
    ensures StillInvited(ms + [m]) <==> StillInvited(ms) && m.DidAnnounce? && m.t <= FirstAnnounce(ms[0])
  {
    var more := ms + [m];
    if StillInvited(more) {
      forall i | 1 <= i < |ms|
        ensures ms[i].DidAnnounce? && ms[i].t <= FirstAnnounce(ms[0])
      {
        assert more[i] == ms[i];
      }
      assert more[|ms|] == m;
    }
  }

  lemma LatestSeenMore(ms: seq<Mark>, t: Time, m: Mark)
    requires |ms| > 0 && LatestSeen(ms, t)
    ensures LatestSeen(ms + [m], if m.Seen() > t then m.Seen() else t)
  {
    var i :| 0 <= i < |ms| && ms[i].Seen() == t;
    assert (ms + [m])[i] == ms[i] && (ms + [m])[|ms|] == m;
  }

  lemma LatestSpokeMore(ms: seq<Mark>, t: Time, m: Mark)
    requires |ms| > 0 && LatestSpoke(ms, t)
    ensures LatestSpoke(ms + [m], if m.Spoke().Some? && m.Spoke().value > t then m.Spoke().value else t)
  {
    var i :| 0 <= i < |ms| && ms[i].Spoke() == Some(t);
    assert (ms + [m])[i] == ms[i] && (ms + [m])[|ms|] == m;
  }

  lemma TellsSend(u: User, ms: seq<Mark>, clock: Time)
    requires Tells(u, ms, clock)
    ensures Tells(u.(lastCommandAt := clock, invited := false), ms + [DidSend(clock)], clock)
  {
    Extends(ms, DidSend(clock));
    LatestSeenMore(ms, LastSeen(u), DidSend(clock));
    LatestSpokeMore(ms, LastSpoke(u), DidSend(clock));
  }

  lemma TellsSpeak(u: User, ms: seq<Mark>, clock: Time)
    requires Tells(u, ms, clock)
    ensures Tells(u.(lastMessageAt := clock, invited := false), ms + [DidSpeak(clock)], clock)
  {
    Extends(ms, DidSpeak(clock));
    LatestSeenMore(ms, LastSeen(u), DidSpeak(clock));
    LatestSpokeMore(ms, LastSpoke(u), DidSpeak(clock));
  }

  function AfterAnnounce(u: User, at: Time): User {
    if at <= u.lastAnnounceAt then u else u.(lastAnnounceAt := at, invited := false)
  }

  lemma TellsAnnounce(u: User, ms: seq<Mark>, at: Time, clock: Time)
    requires Tells(u, ms, clock) && at <= clock
    ensures Tells(AfterAnnounce(u, at), ms + [DidAnnounce(at)], clock)
  {
    Extends(ms, DidAnnounce(at));
    LatestSeenMore(ms, LastSeen(u), DidAnnounce(at));
    LatestSpokeMore(ms, LastSpoke(u), DidAnnounce(at));
  }

  lemma TellsStart(u: User, m: Mark, clock: Time)
    requires LastSeen(u) <= clock
    requires || m == WasLoaded(u)
             || (m == DidJoin(clock) && clock >= ZERO && SameClocks(u, NewUser(clock, false).(lastMessageAt := clock)))
             || (m == WasAdded(clock) && clock >= ZERO && SameClocks(u, NewUser(clock, true)))
    ensures Tells(u, [m], clock)
  {
    assert [m][0] == m;
  }

  lemma TellsLater(u: User, ms: seq<Mark>, clock: Time, t: Time)
    requires Tells(u, ms, clock) && clock <= t
    ensures Tells(u, ms, t)
  {
  }

  // ---- What each step does to one record -----------------------------------

  lemma CommandKeepsClocks(cfg: Config, s: State, raw: Bytes, c: Command, now: Time, h: Hash)
    requires h in Dispatched(cfg, s, raw, c, now).users
    ensures var u := Dispatched(cfg, s, raw, c, now).users[h];
            && (h in s.users ==> SameClocks(u, s.users[h]))
            && (h !in s.users && c.Join? ==> SameClocks(u, NewUser(now, false).(lastMessageAt := now)))
            && (h !in s.users && !c.Join? ==> SameClocks(u, NewUser(now, true)))
  {
    hide Resolve, Sanitized;
  }

  /** Is this step traffic that the relay credits to this member? */
  predicate From(w: World, e: Event, h: Hash) {
    e.Inbound? && |e.raw| == 16 && Encode(e.raw) == h && h !in w.s.banned
  }

  /** Chat that goes out to the group. */
  predicate Speech(w: World, e: Event, h: Hash) {
    From(w, e, h) && e.p == Chat(false) && h in w.s.users && !w.s.users[h].paused
  }

  predicate Announces(e: Event, h: Hash) { e.Announce? && |e.raw| == 16 && Encode(e.raw) == h }

  /** The history entries one step adds for a member who stays. */
  function NewMarks(w: World, e: Event, h: Hash): seq<Mark> {
    if From(w, e, h) then
      if Speech(w, e, h) then [DidSend(w.clock), DidSpeak(w.clock)] else [DidSend(w.clock)]
    else if Announces(e, h) then [DidAnnounce(EmissionTime(e.emitted, w.clock))]
    else []
  }

  function FirstMark(w: World, e: Event): Mark {
    if e.Inbound? && e.p.Cmd? && e.p.c.Join? then DidJoin(w.clock) else WasAdded(w.clock)
  }

  type Diary = map<Hash, seq<Mark>>

  /** A member's history starts when it enters and is forgotten when it leaves. */
  ghost function Write(d: Diary, w: World, e: Event): Diary {
    map h | h in Apply(w, e).s.users ::
      if h in w.s.users && h in d then d[h] + NewMarks(w, e, h) else [FirstMark(w, e)]
  }

  predicate Complete(d: Diary, w: World) {
    d.Keys == w.s.users.Keys && forall h :: h in d ==> Tells(w.s.users[h], d[h], w.clock)
  }

  lemma StayByInbound(w: World, raw: Bytes, p: Payload, h: Hash, ms: seq<Mark>)
    requires h in w.s.users && Tells(w.s.users[h], ms, w.clock)
    requires h in Apply(w, Inbound(raw, p)).s.users
    ensures Tells(Apply(w, Inbound(raw, p)).s.users[h], ms + NewMarks(w, Inbound(raw, p), h), w.clock)
  {
    hide Tells, Dispatched;
    var e := Inbound(raw, p);
    var u := w.s.users[h];
    if |raw| == 16 && Encode(raw) in w.s.banned {
      assert ms + NewMarks(w, e, h) == ms;
    } else {
      var t := Touch(w.s, raw, w.clock);
      if p.Cmd? {
        CommandKeepsClocks(w.cfg, t, raw, p.c, w.clock, h);
      }
      if From(w, e, h) {
        TellsSend(u, ms, w.clock);
        if Speech(w, e, h) {
          TellsSpeak(t.users[h], ms + [DidSend(w.clock)], w.clock);
          assert ms + NewMarks(w, e, h) == ms + [DidSend(w.clock)] + [DidSpeak(w.clock)];
        } else {
          TellsSame(t.users[h], Apply(w, e).s.users[h], ms + [DidSend(w.clock)], w.clock);
        }
      } else {
        assert ms + NewMarks(w, e, h) == ms;
        TellsSame(u, Apply(w, e).s.users[h], ms, w.clock);
      }
    }
  }

  lemma StayByAnnounce(w: World, raw: Bytes, emitted: Option<Time>, name: seq<int>, h: Hash, ms: seq<Mark>)
    requires h in w.s.users && Tells(w.s.users[h], ms, w.clock)
    ensures var e := Announce(raw, emitted, name);
            h in Apply(w, e).s.users && Tells(Apply(w, e).s.users[h], ms + NewMarks(w, e, h), w.clock)
  {
    hide Tells;
    var e := Announce(raw, emitted, name);
    var u := w.s.users[h];
    var at := EmissionTime(emitted, w.clock);
    if Announces(e, h) {
      TellsAnnounce(u, ms, at, w.clock);
      TellsSame(AfterAnnounce(u, at), Apply(w, e).s.users[h], ms + [DidAnnounce(at)], w.clock);
    } else {
      assert ms + NewMarks(w, e, h) == ms;
      TellsSame(u, Apply(w, e).s.users[h], ms, w.clock);
    }
  }

  lemma Stay(w: World, e: Event, h: Hash, ms: seq<Mark>)
    requires Enabled(w, e) && h in w.s.users && Tells(w.s.users[h], ms, w.clock) && h in Apply(w, e).s.users
    ensures Tells(Apply(w, e).s.users[h], ms + NewMarks(w, e, h), Apply(w, e).clock)
  {
    match e
    case Inbound(raw, p) => StayByInbound(w, raw, p, h, ms);
    case Announce(raw, emitted, name) => StayByAnnounce(w, raw, emitted, name, h, ms);
    case Restart(cfg) =>
      EnrolledExactly(w.s, cfg.admins + cfg.mods, w.clock);
      assert ms + NewMarks(w, e, h) == ms;
    case Tick(t) =>
      TellsLater(w.s.users[h], ms, w.clock, t);
      assert ms + NewMarks(w, e, h) == ms;
    case Sweep(_, _) => assert ms + NewMarks(w, e, h) == ms;
  }

  lemma Enter(w: World, e: Event, h: Hash)
    requires Enabled(w, e) && w.clock >= ZERO && h !in w.s.users && h in Apply(w, e).s.users
    ensures Tells(Apply(w, e).s.users[h], [FirstMark(w, e)], Apply(w, e).clock)
  {
    EntryByRight(w, e, h);
    match e {
      case Inbound(raw, p) =>
        TouchFrame(w.s, raw, w.clock);
        CommandKeepsClocks(w.cfg, Touch(w.s, raw, w.clock), raw, p.c, w.clock, h);
      case Restart(cfg) => EnrolledExactly(w.s, cfg.admins + cfg.mods, w.clock);
      case _ =>
    }
    TellsStart(Apply(w, e).s.users[h], FirstMark(w, e), w.clock);
  }

  lemma StepComplete(d: Diary, w: World, e: Event)
    requires Enabled(w, e) && w.clock >= ZERO && Complete(d, w)
    ensures Complete(Write(d, w, e), Apply(w, e))
  {
    var w' := Apply(w, e);
    forall h | h in w'.s.users
      ensures Tells(w'.s.users[h], Write(d, w, e)[h], w'.clock)
    {
      if h in w.s.users {
        Stay(w, e, h, d[h]);
      } else {
        Enter(w, e, h);
      }
    }
  }

  // ---- Runs ----------------------------------------------------------------

  /** A run with its diary, starting from a loaded roster whose instants are past. */
  ghost predicate Diaries(ws: seq<World>, es: seq<Event>, ds: seq<Diary>) {
    && Run(ws, es) && |ds| == |ws|
    && ws[0].clock >= ZERO && (forall h :: h in ws[0].s.users ==> LastSeen(ws[0].s.users[h]) <= ws[0].clock)
    && ds[0] == (map h | h in ws[0].s.users :: [WasLoaded(ws[0].s.users[h])])
    && (forall i {:trigger es[i]} :: 0 <= i < |es| ==> ds[i + 1] == Write(ds[i], ws[i], es[i]))
  }

  lemma DiaryStep(ws: seq<World>, es: seq<Event>, ds: seq<Diary>, i: nat)
    requires Diaries(ws, es, ds) && i < |es|
    ensures ds[i + 1] == Write(ds[i], ws[i], es[i])
  {
  }

  lemma StartComplete(d: Diary, w: World)
    requires forall h :: h in w.s.users ==> LastSeen(w.s.users[h]) <= w.clock
    requires d == map h | h in w.s.users :: [WasLoaded(w.s.users[h])]
    ensures Complete(d, w)
  {
    forall h | h in d
      ensures Tells(w.s.users[h], d[h], w.clock)
    {
      TellsStart(w.s.users[h], WasLoaded(w.s.users[h]), w.clock);
    }
  }

  lemma {:induction false} AlwaysComplete(ws: seq<World>, es: seq<Event>, ds: seq<Diary>, n: nat)
    requires Diaries(ws, es, ds) && n < |ws|
    ensures Complete(ds[n], ws[n]) && ws[n].clock >= ZERO
  {
    if n == 0 {
      StartComplete(ds[0], ws[0]);
    } else {
      AlwaysComplete(ws, es, ds, n - 1);
      Step(ws, es, n - 1);
      DiaryStep(ws, es, ds, n - 1);
      StepComplete(ds[n - 1], ws[n - 1], es[n - 1]);
    }
  }

  /** At every moment of every run under a monotone clock, `LastSeen` is the latest join,
      message, other traffic or announce emission since the member entered, `LastSpoke`
      the latest join or chat message, and the invited flag means "not heard from yet". */
  lemma RecordsSummarise(ws: seq<World>, es: seq<Event>, ds: seq<Diary>, n: nat, h: Hash)
    requires Diaries(ws, es, ds) && n < |ws| && h in ws[n].s.users
    ensures h in ds[n]
    ensures LatestSeen(ds[n][h], LastSeen(ws[n].s.users[h]))
    ensures LatestSpoke(ds[n][h], LastSpoke(ws[n].s.users[h]))
    ensures ws[n].s.users[h].invited <==> StillInvited(ds[n][h])
  {
    AlwaysComplete(ws, es, ds, n);
  }

  /** Everything known of a member is older than this. */
  predicate Unseen(ms: seq<Mark>, t: Time) { forall i :: 0 <= i < |ms| ==> ms[i].Seen() < t }

  predicate Unspoken(ms: seq<Mark>, t: Time) {
    forall i :: 0 <= i < |ms| && ms[i].Spoke().Some? ==> ms[i].Spoke().value < t
  }

  /** A sweep removes exactly the members who have been heard from and of whom either
      nothing at all is known within the idle window, or, when enabled, no join or chat
      message within the silent window; the others keep their records. */
  lemma SweepExactly(ws: seq<World>, es: seq<Event>, ds: seq<Diary>, n: nat, h: Hash)
    requires Diaries(ws, es, ds) && n < |es| && es[n].Sweep? && h in ws[n].s.users
    ensures h in ds[n]
    ensures h !in ws[n + 1].s.users <==>
              && !StillInvited(ds[n][h])
              && (|| Unseen(ds[n][h], ws[n].clock - es[n].idle)
                  || (es[n].silent > 0 && Unspoken(ds[n][h], ws[n].clock - es[n].silent)))
    ensures h in ws[n + 1].s.users ==> ws[n + 1].s.users[h] == ws[n].s.users[h]
  {
    AlwaysComplete(ws, es, ds, n);
    Step(ws, es, n);
    var u, ms := ws[n].s.users[h], ds[n][h];
    LatestMeansUnseen(ms, LastSeen(u), ws[n].clock - es[n].idle);
    LatestMeansUnspoken(ms, LastSpoke(u), ws[n].clock - es[n].silent);
  }

  lemma LatestMeansUnseen(ms: seq<Mark>, last: Time, t: Time)
    requires LatestSeen(ms, last)
    ensures Unseen(ms, t) <==> last < t
  {
  }

  lemma LatestMeansUnspoken(ms: seq<Mark>, last: Time, t: Time)
    requires LatestSpoke(ms, last)
    ensures Unspoken(ms, t) <==> last < t
  {
  }
}
