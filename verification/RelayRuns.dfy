/** What holds of the whole relay over every run: which views are recorded, how often,
    and that the cache's own guarantees therefore apply. */
module RelayRuns {
  import opened Prelude
  import opened Hex
  import O = Outbound
  import S = Scheduler
  import M = IdMap
  import R = IdMapRuns
  import opened Relay
  import opened Fields
  import opened Rewrite
  import RoundTrip
  import RF = RoundTripFields
  import Planning
  import I = Inbound

  /** Who sees which id, at every moment of every run: the sender its own inbound id, a
      member the id of the one successful send of its one copy, everybody else nothing. */
  lemma ViewsExactly(xs: seq<State>, es: seq<Event>, n: nat, b: M.Bubble, member: Bytes)
    requires Run(xs, es) && n < |xs| && b in xs[n].fans
    ensures var x := xs[n];
            M.ViewFor(x.book.cache, b, Encode(member)) ==
            if member == x.fans[b].sender then
              if x.fans[b].inboundId == [] then None else Some(Encode(x.fans[b].inboundId))
            else if (b, member) in x.copies && x.copies[(b, member)] in x.sent
              && x.sent[x.copies[(b, member)]] != [] then
              Some(Encode(x.sent[x.copies[(b, member)]]))
            else None
  {
    Reachable(xs, es, n);
    var x := xs[n];
    var own := x.book.cache.views[b];
    assert Explained(b, own, x.fans[b], x.copies, x.sent);
    if member != x.fans[b].sender && Encode(member) in own {
      EncodeApart(member, x.fans[b].sender);
      var p :| p in x.copies && p.0 == b && Encode(p.1) == Encode(member);
      EncodeApart(p.1, member);
    }
  }

  /** The inbound path's announcement of a bubble is the relay's own opening step. */
  lemma InboundOpens(k: R.Book, b: M.Bubble, m: I.Chat, ttl: Time, todo: set<Bytes>)
    requires ttl > 0
    ensures I.Announced(k.cache, true, b, m, ttl, k.clock) ==
            Opened(k, b, k.clock + ttl, Fan(m.sender, m.messageId, todo)).cache
  {
  }

  /** The pair a step registers, if it registers one. */
  function Registered(x: State, e: Event): Option<Pair>
    requires Enabled(x, e)
  {
    match e
    case Relayed(b, _, fan) => if fan.inboundId == [] then None else Some((b, fan.sender))
    case Returned(k, o) =>
      var m := InHand(x.w, k);
      if o.Sent? && o.msgId != [] && m.bubble.Some? then Some((m.bubble.value, m.recipient)) else None
    case _ => None
  }

  predicate Viewed(k: R.Book, p: Pair) { p.0 in k.cache.views && Encode(p.1) in k.cache.views[p.0] }

  predicate Seen(x: State, p: Pair) { Viewed(x.book, p) }

  function InHand(w: S.World, k: nat): O.Message
    requires k < |w.workers| && w.workers[k].Sending? && w.workers[k].id in O.Ids(w.queue.pending)
  {
    w.queue.pending[O.IndexOf(w.queue.pending, w.workers[k].id)]
  }

  /** The message in a worker's hand is the one unsent copy of its pair. */
  predicate Unsent(x: State, k: nat)
    requires k < |x.w.workers| && x.w.workers[k].Sending? && x.w.workers[k].id in O.Ids(x.w.queue.pending)
  {
    var m := InHand(x.w, k);
    m.bubble.Some? ==> m.bubble.value in x.book.cache.views && !Viewed(x.book, (m.bubble.value, m.recipient))
  }

  lemma AlwaysUnsent(x: State, k: nat)
    requires Inv(x) && k < |x.w.workers| && x.w.workers[k].Sending? && x.w.workers[k].id in O.Ids(x.w.queue.pending)
    ensures Unsent(x, k)
  {
    NotSentYet(x.w, x.sent, k);
    CopyInHand(x.w, x.fans, x.copies, x.w.workers[k].id);
    var m := InHand(x.w, k);
    if m.bubble.Some? {
      var b := m.bubble.value;
      NoViewYet(b, x.book.cache.views[b], x.fans[b], x.copies, x.sent, m.recipient);
    }
  }

  /** What a step needs of the cache. */
  predicate Ready(x: State, e: Event)
    requires Enabled(x, e)
  {
    match e
    case Relayed(b, _, _) => b !in x.book.cache.views
    case Returned(k, _) => Unsent(x, k)
    case Queue(_) => x.book.clock == x.w.clock
    case _ => true
  }

  lemma AlwaysReady(x: State, e: Event)
    requires Inv(x) && Enabled(x, e)
    ensures Ready(x, e)
  {
    match e
    case Returned(k, _) => AlwaysUnsent(x, k);
    case Relayed(_, _, _) =>
    case Queue(_) =>
    case _ =>
  }

  lemma RegisterKeepsViews(k: R.Book, b: M.Bubble, member: Bytes, id: Bytes, p: Pair)
    requires b in k.cache.views
    ensures Viewed(k, p) ==> Viewed(Register(k, b, member, id), p)
    ensures id != [] ==> Viewed(Register(k, b, member, id), (b, member))
  {
    RegisterViews(k, b, member, id);
  }

  lemma SeenByReturned(x: State, k: nat, o: O.Outcome, p: Pair)
    requires Enabled(x, Returned(k, o)) && Unsent(x, k)
    ensures Seen(x, p) ==> Seen(Return(x, k, o), p)
    ensures Registered(x, Returned(k, o)) == Some(p) ==> !Seen(x, p) && Seen(Return(x, k, o), p)
  {
    var m := InHand(x.w, k);
    if o.Sent? && m.bubble.Some? {
      RegisterKeepsViews(x.book, m.bubble.value, m.recipient, o.msgId, p);
    }
  }

  lemma FirstIfReady(x: State, e: Event)
    requires Enabled(x, e) && Ready(x, e) && Registered(x, e).Some?
    ensures !Seen(x, Registered(x, e).value) && Seen(Apply(x, e), Registered(x, e).value)
  {
    match e
    case Relayed(b, t, fan) => OpenedViews(x.book, b, t, fan);
    case Returned(k, o) =>
      SeenByReturned(x, k, o, Registered(x, e).value);
    case _ =>
  }

  /** Steps that leave the views alone. */
  lemma ViewsFrame(x: State, e: Event)
    requires Enabled(x, e) && !e.Relayed? && !e.Returned? && !IsRestart(e)
    ensures Apply(x, e).book.cache.views == x.book.cache.views
  {
    if e.Looked? {
      LookFrame(x.book, e.id);
    }
  }

  lemma SeenStays(x: State, e: Event, p: Pair)
    requires Enabled(x, e) && Ready(x, e) && Seen(x, p) && !IsRestart(e)
    ensures Seen(Apply(x, e), p)
  {
    match e
    case Relayed(b, t, fan) => OpenedViews(x.book, b, t, fan);
    case Returned(k, o) =>
      SeenByReturned(x, k, o, p);
    case _ => ViewsFrame(x, e);
  }

  predicate OneProcess(es: seq<Event>, a: nat, b: nat)
    requires a <= b <= |es|
  {
    forall i :: a <= i < b ==> !IsRestart(es[i])
  }

  predicate IsRestart(e: Event) { e.Queue? && e.e.Restarted? }

  lemma {:induction false} SeenOnwards(xs: seq<State>, es: seq<Event>, i: nat, j: nat, p: Pair)
    requires Run(xs, es) && i <= j < |xs| && OneProcess(es, i, j) && Seen(xs[i], p)
    ensures Seen(xs[j], p)
  {
    hide Inv, Apply, Ready, Viewed, Registered;
    if i < j {
      SeenOnwards(xs, es, i, j - 1, p);
      Reachable(xs, es, j - 1);
      Step(xs, es, j - 1);
      AlwaysReady(xs[j - 1], es[j - 1]);
      SeenStays(xs[j - 1], es[j - 1], p);
    }
  }

  /** Whenever a run of the relay registers a view, the pair has none yet and has one from
      then on: the cache's demand is met. */
  lemma FirstTime(xs: seq<State>, es: seq<Event>, n: nat)
    requires |xs| == |es| + 1 && Run(xs, es) && n < |es|
    requires Enabled(xs[n], es[n]) && Registered(xs[n], es[n]).Some?
    ensures var pair := Registered(xs[n], es[n]).value; !Seen(xs[n], pair) && Seen(xs[n + 1], pair)
  {
    hide Run, Inv, Apply, Ready, Viewed, Registered;
    Reachable(xs, es, n);
    AlwaysReady(xs[n], es[n]);
    Step(xs, es, n);
    FirstIfReady(xs[n], es[n]);
  }

  /** Within one process no pair is registered twice, however often its message is
      retried, re-routed or handed from worker to worker. */
  lemma NeverTwice(xs: seq<State>, es: seq<Event>, i: nat, j: nat)
    requires Run(xs, es) && i < j < |es| && OneProcess(es, i, j)
    requires Enabled(xs[i], es[i]) && Registered(xs[i], es[i]).Some?
    requires Enabled(xs[j], es[j]) && Registered(xs[j], es[j]).Some?
    ensures Registered(xs[i], es[i]) != Registered(xs[j], es[j])
  {
    hide Inv, Apply, Ready, Viewed, Registered;
    var p := Registered(xs[i], es[i]).value;
    Reachable(xs, es, i);
    Reachable(xs, es, j);
    AlwaysReady(xs[i], es[i]);
    AlwaysReady(xs[j], es[j]);
    Step(xs, es, i);
    FirstIfReady(xs[i], es[i]);
    SeenOnwards(xs, es, i + 1, j, p);
    FirstIfReady(xs[j], es[j]);
  }

  // ---- The cache's history -------------------------------------------------

  /** A cache run that has reached this book. */
  ghost predicate Reaches(ks: seq<R.Book>, rs: seq<R.Event>, k: R.Book) {
    R.Run(ks, rs) && RoundTrip.HexRun(rs) && ks[|rs|] == k
  }

  lemma Extend(ks: seq<R.Book>, rs: seq<R.Event>, k: R.Book, r: R.Event)
    requires Reaches(ks, rs, k) && R.Enabled(k, r) && (r.Register? ==> RoundTrip.HexId(r.id))
    ensures Reaches(ks + [R.Apply(k, r)], rs + [r], R.Apply(k, r))
  {
    var rs' := rs + [r];
    var ks' := ks + [R.Apply(k, r)];
    forall i {:trigger rs'[i]} | 0 <= i < |rs'|
      ensures R.Enabled(ks'[i], rs'[i]) && ks'[i + 1] == R.Apply(ks'[i], rs'[i])
    {
      if i < |rs| {
        R.Step(ks, rs, i);
      }
    }
  }

  lemma EncodedIsHex(id: Bytes)
    requires id != []
    ensures RoundTrip.HexId(Encode(id))
  {
    DecodeEncode(id);
  }

  lemma ExtendRegister(ks: seq<R.Book>, rs: seq<R.Event>, k: R.Book, b: M.Bubble, member: Bytes, id: Bytes)
    returns (ks': seq<R.Book>, rs': seq<R.Event>)
    requires Reaches(ks, rs, k) && b in k.cache.views && (id != [] ==> Encode(member) !in k.cache.views[b])
    ensures Reaches(ks', rs', Register(k, b, member, id)) && ks <= ks'
  {
    if id == [] {
      ks', rs' := ks, rs;
    } else {
      var r := R.Register(b, Encode(member), Encode(id));
      EncodedIsHex(id);
      RegisterIsApply(k, b, member, id);
      Extend(ks, rs, k, r);
      ks', rs' := ks + [R.Apply(k, r)], rs + [r];
    }
  }

  lemma ExtendRelayed(ks: seq<R.Book>, rs: seq<R.Event>, k: R.Book, b: M.Bubble, t: Time, fan: Fan)
    returns (ks': seq<R.Book>, rs': seq<R.Event>)
    requires Reaches(ks, rs, k) && b !in k.cache.views
    ensures Reaches(ks', rs', Opened(k, b, t, fan)) && ks <= ks'
  {
    var r := R.Create(b, t);
    var k1 := R.Apply(k, r);
    Extend(ks, rs, k, r);
    ks', rs' := ExtendRegister(ks + [k1], rs + [r], k1, b, fan.sender, fan.inboundId);
  }

  lemma ExtendReturned(ks: seq<R.Book>, rs: seq<R.Event>, x: State, k: nat, o: O.Outcome)
    returns (ks': seq<R.Book>, rs': seq<R.Event>)
    requires Enabled(x, Returned(k, o)) && Unsent(x, k) && Reaches(ks, rs, x.book)
    ensures Reaches(ks', rs', Return(x, k, o).book) && ks <= ks'
  {
    var m := InHand(x.w, k);
    if o.Sent? && m.bubble.Some? {
      ks', rs' := ExtendRegister(ks, rs, x.book, m.bubble.value, m.recipient, o.msgId);
    } else {
      ks', rs' := ks, rs;
    }
  }

  lemma BookStep(ks: seq<R.Book>, rs: seq<R.Event>, x: State, e: Event) returns (ks': seq<R.Book>, rs': seq<R.Event>)
    requires Enabled(x, e) && Ready(x, e) && Reaches(ks, rs, x.book)
    ensures Reaches(ks', rs', Apply(x, e).book) && (!IsRestart(e) ==> ks <= ks')
  {
    ks', rs' := ks, rs;
    match e {
      case Relayed(b, t, fan) => ks', rs' := ExtendRelayed(ks, rs, x.book, b, t, fan);
      case Returned(k, o) =>
        ks', rs' := ExtendReturned(ks, rs, x, k, o);
      case Looked(id) =>
        Extend(ks, rs, x.book, R.Look(id));
        ks', rs' := ks + [R.Apply(x.book, R.Look(id))], rs + [R.Look(id)];
      case Queue(q) =>
        if q.Restarted? {
          NewBookInv(x.book);
          ks', rs' := [NewBook(x.book)], [];
        } else if q.Tick? {
          Extend(ks, rs, x.book, R.Tick(q.t));
          ks', rs' := ks + [R.Apply(x.book, R.Tick(q.t))], rs + [R.Tick(q.t)];
        }
      case _ =>
    }
  }

  /** The relay only ever uses the cache as the cache demands: at every moment its cache is
      the outcome of a cache run. */
  lemma {:induction false} CacheUsedProperly(xs: seq<State>, es: seq<Event>, n: nat)
    returns (ks: seq<R.Book>, rs: seq<R.Event>)
    requires Run(xs, es) && n < |xs|
    ensures R.Run(ks, rs) && RoundTrip.HexRun(rs) && ks[|rs|] == xs[n].book
  {
    hide Apply, Inv, R.Run, RoundTrip.HexRun, R.Init;
    if n == 0 {
      ks, rs := [xs[0].book], [];
      FirstBook(xs[0]);
    } else {
      ks, rs := CacheUsedProperly(xs, es, n - 1);
      ks, rs := BookOnwards(ks, rs, xs, es, n - 1);
    }
  }

  lemma FirstBook(x: State)
    requires Init(x)
    ensures Reaches([x.book], [], x.book)
  {
  }

  lemma BookOnwards(ks: seq<R.Book>, rs: seq<R.Event>, xs: seq<State>, es: seq<Event>, n: nat)
    returns (ks': seq<R.Book>, rs': seq<R.Event>)
    requires Run(xs, es) && n < |es| && Reaches(ks, rs, xs[n].book)
    ensures Reaches(ks', rs', xs[n + 1].book) && (!IsRestart(es[n]) ==> ks <= ks')
  {
    hide Apply, Inv, Reaches;
    Reachable(xs, es, n);
    Step(xs, es, n);
    AlwaysReady(xs[n], es[n]);
    ks', rs' := BookStep(ks, rs, xs[n], es[n]);
  }

  /** What `buildRewrite`'s scan asks of the cache holds at every moment of every run without
      an id collision. */
  lemma ScanDemandMet(xs: seq<State>, es: seq<Event>, n: nat)
    requires Run(xs, es) && n < |xs| && !xs[n].book.clash
    ensures M.Valid(xs[n].book.cache) && Planning.Solo(xs[n].book.cache)
  {
    hide R.Inv, M.Valid, Planning.Solo;
    Reachable(xs, es, n);
    Planning.RunsAreSolo(xs[n].book);
  }

  /** Any two moments of one process are two moments of one cache run, so what is proved of
      those (`CacheSafety`, `LookupAgrees`, `ThereAndBack`) holds of the relay. */
  lemma {:induction false} TwoMoments(xs: seq<State>, es: seq<Event>, i: nat, j: nat)
    returns (ks: seq<R.Book>, rs: seq<R.Event>, m: nat)
    requires Run(xs, es) && i <= j < |xs| && OneProcess(es, i, j)
    ensures R.Run(ks, rs) && RoundTrip.HexRun(rs) && m <= |rs| < |ks|
    ensures ks[m] == xs[i].book && ks[|rs|] == xs[j].book
  {
    hide Apply, Inv, RoundTrip.HexRun;
    if i == j {
      ks, rs := CacheUsedProperly(xs, es, i);
      m := |rs|;
    } else {
      ks, rs, m := TwoMoments(xs, es, i, j - 1);
      ghost var before := ks;
      ks, rs := BookOnwards(ks, rs, xs, es, j - 1);
      assert ks[m] == before[m];
    }
  }

  /** The round trip, in the relay itself: rewrite A's message for B at one moment of a process
      and B's copy for A at a later one. Every annotation that resolved, and whose view at B
      still resolves, reads as the id A used; so does the reply; nothing else has changed. */
  lemma RelayRoundTrip(xs: seq<State>, es: seq<Event>, i: nat, j: nat, f: FieldMap, g: FieldMap, h: FieldMap,
                       a: Bytes, b: Bytes)
    requires Run(xs, es) && i <= j < |xs| && OneProcess(es, i, j) && !xs[j].book.clash && Canonical(f)
    requires var k, k' := xs[i].book, xs[j].book;
             RoundTrip.Mine(k, f, a) && RoundTrip.Sent(k, f, b) == Some(g) && RoundTrip.Sent(k', g, a) == Some(h)
    ensures var k, k' := xs[i].book, xs[j].book;
            var plan := RoundTrip.PlanAt(k, f);
            && (forall n :: n in plan.dicts && RF.StillThere(k, k', f, n, b) ==> TargetHex(h, n) == TargetHex(f, n))
            && (plan.reply.Some? ==>
                  var view := M.ViewFor(k.cache, plan.reply.value, b);
                  view.Some? && Hit(k'.cache, view.value, k'.clock).Some? ==> ReplyHex(h) == ReplyHex(f))
            && (forall x :: x in f && RF.Outside(k, f, x) && RF.Outside(k', g, x) ==> x in h && h[x] == f[x])
  {
    hide Run, R.Run, RoundTrip.HexRun, RoundTrip.Mine, RoundTrip.Sent, RoundTrip.PlanAt;
    var ks, rs, m := TwoMoments(xs, es, i, j);
    RF.MessageReturns(ks, rs, m, |rs|, f, g, h, a, b);
  }
}
