/** The relay as a whole: fan-outs, the outbound queue's workers and the id cache,
    interleaved. A bubble reaches the cache from two places, the inbox (the sender's own
    id) and any worker whose send succeeded; nothing in either place checks that the pair
    is new. That it always is, is what this module proves. */
module Relay {
  import opened Prelude
  import opened Hex
  import O = Outbound
  import S = Scheduler
  import SO = SchedulerOrder
  import SR = SchedulerRuns
  import M = IdMap
  import R = IdMapRuns
  import RoundTrip

  /** A bubble's fan-out: whose message it is, and the members not yet reached. */
  datatype Fan = Fan(sender: Bytes, inboundId: Bytes, todo: set<Bytes>)

  type Pair = (M.Bubble, Bytes)

  datatype State = State(
    w: S.World,
    book: R.Book,
    fans: map<M.Bubble, Fan>,      // every bubble of this process
    copies: map<Pair, string>,     // the message queued for a bubble and a member
    sent: map<string, Bytes>)      // queued message -> id of its successful send

  datatype Event =
    | Relayed(b: M.Bubble, expiresAt: Time, fan: Fan)
    | Written(b: M.Bubble, m: O.Message)
    | Skipped(b: M.Bubble, member: Bytes)
    | Noted(m: O.Message)
    | Returned(k: nat, outcome: O.Outcome)
    | Looked(id: Bytes)
    | Queue(e: S.Event)

  /** `RegisterView` on the book, with no condition on the pair. */
  function Register(k: R.Book, b: M.Bubble, member: Bytes, id: Bytes): R.Book {
    if id == [] then k
    else
      var k1 := R.Enrol(k, b, Encode(member), Encode(id));
      k1.(cache := M.EnforceCap(k1.cache))
  }

  function Opened(k: R.Book, b: M.Bubble, t: Time, fan: Fan): R.Book {
    Register(k.(cache := M.NewBubble(k.cache, b, t)), b, fan.sender, fan.inboundId)
  }

  predicate Enabled(x: State, e: Event) {
    match e
    case Relayed(b, _, fan) => b !in x.fans && fan.sender !in fan.todo
    case Written(b, m) =>
      b in x.fans && m.recipient in x.fans[b].todo && m.bubble == Some(b) && S.Enabled(x.w, S.Enqueued(m))
    case Skipped(b, member) => b in x.fans
    case Noted(m) => m.bubble == None && S.Enabled(x.w, S.Enqueued(m))
    case Returned(k, o) => S.Enabled(x.w, S.SendReturned(k, o)) && x.w.workers[k].id in O.Ids(x.w.queue.pending)
    case Looked(_) => true
    case Queue(e) => !e.Enqueued? && !e.SendReturned? && S.Enabled(x.w, e)
  }

  function Reached(fans: map<M.Bubble, Fan>, b: M.Bubble, member: Bytes): map<M.Bubble, Fan>
    requires b in fans
  {
    fans[b := fans[b].(todo := fans[b].todo - {member})]
  }

  function NewBook(k: R.Book): R.Book {
    R.Book(M.Cache(map[], [], map[], map[], k.cache.maxSize), k.clock, 0, map[], map[], map[], map[], false)
  }

  /** The send returned; a success with a bubble is registered before the queue hears of it. */
  function Return(x: State, k: nat, o: O.Outcome): State
    requires Enabled(x, Returned(k, o))
  {
    var id := x.w.workers[k].id;
    var m := x.w.queue.pending[O.IndexOf(x.w.queue.pending, id)];
    x.(w := S.Apply(x.w, S.SendReturned(k, o)),
       sent := if o.Sent? then x.sent[id := o.msgId] else x.sent,
       book := if o.Sent? && m.bubble.Some? then Register(x.book, m.bubble.value, m.recipient, o.msgId) else x.book)
  }

  function Reboot(x: State, p: O.Policy): State {
    State(S.Boot(x.w, p), NewBook(x.book), map[], map[], map[])
  }

  function Apply(x: State, e: Event): State
    requires Enabled(x, e)
  {
    match e
    case Relayed(b, t, fan) =>
      x.(book := Opened(x.book, b, t, fan),
         fans := x.fans[b := fan])
    case Written(b, m) =>
      x.(w := S.Apply(x.w, S.Enqueued(m)),
         fans := Reached(x.fans, b, m.recipient),
         copies := if O.Full(x.w.queue) then x.copies else x.copies[(b, m.recipient) := m.id])
    case Skipped(b, member) => x.(fans := Reached(x.fans, b, member))
    case Noted(m) => x.(w := S.Apply(x.w, S.Enqueued(m)))
    case Returned(k, o) => Return(x, k, o)
    case Looked(id) => x.(book := R.Apply(x.book, R.Look(id)))
    case Queue(e) =>
      if e.Restarted? then Reboot(x, e.policy)
      else x.(w := S.Apply(x.w, e), book := if e.Tick? then x.book.(clock := e.t) else x.book)
  }

  predicate Init(x: State) {
    && S.Init(x.w) && R.Init(x.book) && x.book.clock == x.w.clock
    && x.fans == map[] && x.copies == map[] && x.sent == map[]
  }

  // ---- One message per pair ------------------------------------------------

  /** Every queued or once queued copy of a bubble is the one copy for its member. */
  predicate OneCopy(log: seq<O.Message>, fans: map<M.Bubble, Fan>, copies: map<Pair, string>) {
    && (forall b :: b in fans ==> fans[b].sender !in fans[b].todo)
    && (forall n :: 0 <= n < |log| && log[n].bubble.Some? ==>
          var p := (log[n].bubble.value, log[n].recipient); p in copies && copies[p] == log[n].id)
    && (forall p :: p in copies ==> p.0 in fans && p.1 != fans[p.0].sender && p.1 !in fans[p.0].todo)
    && (forall p, q :: p in copies && q in copies && copies[p] == copies[q] ==> p == q)
  }

  /** Every recorded copy names an accepted message of that bubble and member. */
  predicate CopiesLogged(log: seq<O.Message>, number: map<string, nat>, copies: map<Pair, string>) {
    forall p :: p in copies ==>
      && copies[p] in number && number[copies[p]] < |log|
      && log[number[copies[p]]].bubble == Some(p.0) && log[number[copies[p]]].recipient == p.1
  }

  /** A success is known while its worker still holds the message, and ever after. */
  predicate Settled(workers: seq<S.Worker>, fate: map<string, S.Fate>, sent: map<string, Bytes>) {
    && (forall id :: id in sent ==> (id in fate && fate[id].WasDelivered?) || Held(workers, id, sent[id]))
    && (forall k :: 0 <= k < |workers| && workers[k].Returned? && workers[k].outcome.Sent? ==>
          workers[k].id in sent && sent[workers[k].id] == workers[k].outcome.msgId)
    && (forall id :: id in fate && fate[id].WasDelivered? ==> id in sent)
  }

  predicate Held(workers: seq<S.Worker>, id: string, raw: Bytes) {
    exists k :: 0 <= k < |workers| && workers[k].Returned? && workers[k].id == id && workers[k].outcome == O.Sent(raw)
  }

  /** The views of a bubble: the inbound id for its sender, and for each member with a
      copy the id of that copy's successful send, once there is one. Nothing else. */
  predicate Explained(b: M.Bubble, own: map<M.Hex, M.Hex>, fan: Fan, copies: map<Pair, string>,
                      sent: map<string, Bytes>)
  {
    && (Encode(fan.sender) in own <==> fan.inboundId != [])
    && (Encode(fan.sender) in own ==> own[Encode(fan.sender)] == Encode(fan.inboundId))
    && (forall p :: p in copies && p.0 == b ==>
          && (Encode(p.1) in own <==> copies[p] in sent && sent[copies[p]] != [])
          && (Encode(p.1) in own ==> own[Encode(p.1)] == Encode(sent[copies[p]])))
    && (forall r :: r in own && r != Encode(fan.sender) ==> exists p :: p in copies && p.0 == b && Encode(p.1) == r)
  }

  predicate AllExplained(views: map<M.Bubble, map<M.Hex, M.Hex>>, fans: map<M.Bubble, Fan>, copies: map<Pair, string>,
                         sent: map<string, Bytes>)
  {
    && views.Keys == fans.Keys
    && (forall b :: b in fans ==> Explained(b, views[b], fans[b], copies, sent))
  }

  /** Bubbles are in memory only. */
  predicate Bare(s: seq<O.Message>) { forall i :: 0 <= i < |s| ==> s[i].bubble.None? }

  predicate DiskBare(w: S.World) { Bare(w.disk) && (w.flusher.Saving? ==> Bare(w.flusher.snap)) }

  ghost predicate Inv(x: State) {
    && SR.Inv(x.w) && R.Inv(x.book) && x.book.clock == x.w.clock && DiskBare(x.w)
    && OneCopy(x.w.log, x.fans, x.copies) && CopiesLogged(x.w.log, x.w.number, x.copies)
    && Settled(x.w.workers, x.w.fate, x.sent)
    && AllExplained(x.book.cache.views, x.fans, x.copies, x.sent)
  }

  // ---- Registration --------------------------------------------------------

  lemma EncodeApart(a: Bytes, b: Bytes)
    ensures Encode(a) == Encode(b) ==> a == b
  {
    if Encode(a) == Encode(b) {
      EncodeInjective(a, b);
    }
  }

  /** A member whose copy has not been sent has no view yet. */
  lemma NoViewYet(b: M.Bubble, own: map<M.Hex, M.Hex>, fan: Fan, copies: map<Pair, string>, sent: map<string, Bytes>,
                  member: Bytes)
    requires Explained(b, own, fan, copies, sent) && member != fan.sender
    requires (b, member) !in copies || copies[(b, member)] !in sent
    ensures Encode(member) !in own
  {
    EncodeApart(member, fan.sender);
    if Encode(member) in own {
      var p :| p in copies && p.0 == b && Encode(p.1) == Encode(member);
      EncodeApart(p.1, member);
    }
  }

  /** The view recorded by a successful send explains itself. */
  lemma ExplainSend(b: M.Bubble, own: map<M.Hex, M.Hex>, fan: Fan, copies: map<Pair, string>, sent: map<string, Bytes>,
                    member: Bytes, raw: Bytes)
    requires Explained(b, own, fan, copies, sent) && member != fan.sender
    requires (b, member) in copies && copies[(b, member)] !in sent && raw != []
    requires forall p, q :: p in copies && q in copies && copies[p] == copies[q] ==> p == q
    ensures Explained(b, own[Encode(member) := Encode(raw)], fan, copies, sent[copies[(b, member)] := raw])
  {
    EncodeApart(member, fan.sender);
    var own' := own[Encode(member) := Encode(raw)];
    var sent' := sent[copies[(b, member)] := raw];
    forall p | p in copies && p.0 == b
      ensures Encode(p.1) in own' <==> copies[p] in sent' && sent'[copies[p]] != []
      ensures Encode(p.1) in own' ==> own'[Encode(p.1)] == Encode(sent'[copies[p]])
    {
      EncodeApart(p.1, member);
    }
    forall r | r in own' && r != Encode(fan.sender)
      ensures exists p :: p in copies && p.0 == b && Encode(p.1) == r
    {
      if r == Encode(member) {
        assert (b, member) in copies && (b, member).0 == b;
      }
    }
  }

  /** A success that leaves this bubble's views alone: another bubble's, or an empty id. */
  lemma ExplainOther(b: M.Bubble, own: map<M.Hex, M.Hex>, fan: Fan, copies: map<Pair, string>, sent: map<string, Bytes>,
                     id: string, raw: Bytes)
    requires Explained(b, own, fan, copies, sent) && id !in sent
    requires raw == [] || forall p :: p in copies && p.0 == b ==> copies[p] != id
    ensures Explained(b, own, fan, copies, sent[id := raw])
  {
  }

  /** `R.Apply` and the unconditional registration agree where the former is defined. */
  lemma RegisterIsApply(k: R.Book, b: M.Bubble, member: Bytes, id: Bytes)
    requires id != [] && b in k.cache.views && Encode(member) !in k.cache.views[b]
    ensures R.Enabled(k, R.Register(b, Encode(member), Encode(id)))
    ensures Register(k, b, member, id) == R.Apply(k, R.Register(b, Encode(member), Encode(id)))
  {
  }

  lemma RegisterViews(k: R.Book, b: M.Bubble, member: Bytes, id: Bytes)
    requires b in k.cache.views
    ensures var k' := Register(k, b, member, id);
            && k'.clock == k.clock
            && k'.cache.views == if id == [] then k.cache.views
                                 else k.cache.views[b := k.cache.views[b][Encode(member) := Encode(id)]]
  {
    M.EvictFrame(k.cache, k.clock);
    if id != [] {
      M.CapFrame(R.Enrol(k, b, Encode(member), Encode(id)).cache);
    }
  }

  lemma RegisterKeeps(k: R.Book, b: M.Bubble, member: Bytes, id: Bytes)
    requires R.Inv(k) && b in k.cache.views && Encode(member) !in k.cache.views[b]
    ensures R.Inv(Register(k, b, member, id))
  {
    if id != [] {
      RegisterIsApply(k, b, member, id);
      R.StepInv(k, R.Register(b, Encode(member), Encode(id)));
    }
  }

  // ---- Steps ---------------------------------------------------------------

  function FirstView(fan: Fan): map<M.Hex, M.Hex> {
    if fan.inboundId == [] then map[] else map[Encode(fan.sender) := Encode(fan.inboundId)]
  }

  lemma FreshExplained(b: M.Bubble, fan: Fan, copies: map<Pair, string>, sent: map<string, Bytes>)
    requires forall p :: p in copies ==> p.0 != b
    ensures Explained(b, FirstView(fan), fan, copies, sent)
  {
  }

  lemma BookByCreated(k: R.Book, b: M.Bubble, t: Time)
    requires R.Inv(k) && b !in k.cache.views
    ensures R.Inv(k.(cache := M.NewBubble(k.cache, b, t)))
  {
    assert k.(cache := M.NewBubble(k.cache, b, t)) == R.Apply(k, R.Create(b, t));
    R.StepInv(k, R.Create(b, t));
  }

  lemma BookByRelayed(k: R.Book, b: M.Bubble, t: Time, fan: Fan)
    requires R.Inv(k) && b !in k.cache.views
    ensures R.Inv(Opened(k, b, t, fan))
  {
    BookByCreated(k, b, t);
    RegisterKeeps(k.(cache := M.NewBubble(k.cache, b, t)), b, fan.sender, fan.inboundId);
  }

  lemma OpenedViews(k: R.Book, b: M.Bubble, t: Time, fan: Fan)
    ensures Opened(k, b, t, fan).clock == k.clock
    ensures Opened(k, b, t, fan).cache.views == k.cache.views[b := FirstView(fan)]
  {
    RegisterViews(k.(cache := M.NewBubble(k.cache, b, t)), b, fan.sender, fan.inboundId);
    assert map[][Encode(fan.sender) := Encode(fan.inboundId)] == map[Encode(fan.sender) := Encode(fan.inboundId)];
  }

  lemma ViewsByRelayed(views: map<M.Bubble, map<M.Hex, M.Hex>>, fans: map<M.Bubble, Fan>, copies: map<Pair, string>,
                       sent: map<string, Bytes>, b: M.Bubble, fan: Fan)
    requires AllExplained(views, fans, copies, sent) && b !in fans && forall p :: p in copies ==> p.0 in fans
    ensures AllExplained(views[b := FirstView(fan)], fans[b := fan], copies, sent)
  {
    FreshExplained(b, fan, copies, sent);
  }

  lemma KeepsByRelayed(x: State, b: M.Bubble, t: Time, fan: Fan)
    requires Inv(x) && Enabled(x, Relayed(b, t, fan))
    ensures Inv(Apply(x, Relayed(b, t, fan)))
  {
    BookByRelayed(x.book, b, t, fan);
    OpenedViews(x.book, b, t, fan);
    ViewsByRelayed(x.book.cache.views, x.fans, x.copies, x.sent, b, fan);
    CopiesByRelayed(x.w.log, x.fans, x.copies, b, fan);
  }

  lemma CopiesByRelayed(log: seq<O.Message>, fans: map<M.Bubble, Fan>, copies: map<Pair, string>, b: M.Bubble, fan: Fan)
    requires OneCopy(log, fans, copies) && b !in fans && fan.sender !in fan.todo
    ensures OneCopy(log, fans[b := fan], copies)
  {
  }

  lemma OneCopyAppend(log: seq<O.Message>, fans: map<M.Bubble, Fan>, copies: map<Pair, string>, b: M.Bubble,
                      m: O.Message)
    requires OneCopy(log, fans, copies) && b in fans && m.recipient in fans[b].todo && m.bubble == Some(b)
    requires forall p :: p in copies ==> copies[p] != m.id
    ensures OneCopy(log + [m], Reached(fans, b, m.recipient), copies[(b, m.recipient) := m.id])
  {
    assert (b, m.recipient) !in copies;
  }

  lemma ExplainCopy(b: M.Bubble, own: map<M.Hex, M.Hex>, fan: Fan, copies: map<Pair, string>, sent: map<string, Bytes>,
                    member: Bytes, id: string)
    requires Explained(b, own, fan, copies, sent) && member != fan.sender && (b, member) !in copies && id !in sent
    ensures Explained(b, own, fan.(todo := fan.todo - {member}), copies[(b, member) := id], sent)
  {
    NoViewYet(b, own, fan, copies, sent, member);
    var copies' := copies[(b, member) := id];
    forall r | r in own && r != Encode(fan.sender)
      ensures exists p :: p in copies' && p.0 == b && Encode(p.1) == r
    {
      var p :| p in copies && p.0 == b && Encode(p.1) == r;
      assert p in copies';
    }
  }

  lemma ExplainElsewhere(c: M.Bubble, own: map<M.Hex, M.Hex>, fan: Fan, copies: map<Pair, string>,
                         sent: map<string, Bytes>,
                         p: Pair, id: string)
    requires Explained(c, own, fan, copies, sent) && p.0 != c
    ensures Explained(c, own, fan, copies[p := id], sent)
  {
    var copies' := copies[p := id];
    forall r | r in own && r != Encode(fan.sender)
      ensures exists q :: q in copies' && q.0 == c && Encode(q.1) == r
    {
      var q :| q in copies && q.0 == c && Encode(q.1) == r;
      assert q in copies';
    }
  }

  /** Ids with a recorded copy or success belong to accepted messages. */
  lemma KnownIds(x: State, id: string)
    requires Inv(x) && id in x.sent
    ensures id in x.w.number
  {
    if !(id in x.w.fate && x.w.fate[id].WasDelivered?) {
      var k :| 0 <= k < |x.w.workers| && x.w.workers[k].Returned? && x.w.workers[k].id == id
        && x.w.workers[k].outcome == O.Sent(x.sent[id]);
      assert id in S.HeldIds(x.w.workers);
    }
  }

  lemma BareSnapshot(s: seq<O.Message>)
    ensures Bare(O.Snapshot(s))
  {
  }

  lemma {:induction false} BareLoad(p: O.Policy, file: seq<O.Message>)
    requires Bare(file)
    ensures Bare(O.Load(p, file))
  {
    if |file| != 0 {
      BareLoad(p, file[..|file| - 1]);
    }
  }

  lemma KeepsDiskBare(w: S.World, e: S.Event)
    requires DiskBare(w) && S.Enabled(w, e)
    ensures DiskBare(S.Apply(w, e))
  {
    BareSnapshot(w.queue.pending);
  }

  lemma OneCopyNote(log: seq<O.Message>, fans: map<M.Bubble, Fan>, copies: map<Pair, string>, m: O.Message)
    requires OneCopy(log, fans, copies) && m.bubble == None
    ensures OneCopy(log + [m], fans, copies)
  {
  }

  lemma OneCopyReach(log: seq<O.Message>, fans: map<M.Bubble, Fan>, copies: map<Pair, string>, b: M.Bubble,
                     member: Bytes)
    requires OneCopy(log, fans, copies) && b in fans
    ensures OneCopy(log, Reached(fans, b, member), copies)
  {
  }

  lemma ExplainReach(views: map<M.Bubble, map<M.Hex, M.Hex>>, fans: map<M.Bubble, Fan>, copies: map<Pair, string>,
                     sent: map<string, Bytes>, b: M.Bubble, member: Bytes)
    requires AllExplained(views, fans, copies, sent) && b in fans
    ensures AllExplained(views, Reached(fans, b, member), copies, sent)
  {
    assert Explained(b, views[b], fans[b], copies, sent);
  }

  lemma ExplainWritten(views: map<M.Bubble, map<M.Hex, M.Hex>>, fans: map<M.Bubble, Fan>, copies: map<Pair, string>,
                       sent: map<string, Bytes>, b: M.Bubble, member: Bytes, id: string)
    requires AllExplained(views, fans, copies, sent) && b in fans && id !in sent
    requires member != fans[b].sender && (b, member) !in copies
    ensures AllExplained(views, Reached(fans, b, member), copies[(b, member) := id], sent)
  {
    ExplainCopy(b, views[b], fans[b], copies, sent, member, id);
    forall c | c in fans && c != b
      ensures Explained(c, views[c], fans[c], copies[(b, member) := id], sent)
    {
      ExplainElsewhere(c, views[c], fans[c], copies, sent, (b, member), id);
    }
  }

  lemma KeepsByWritten(x: State, b: M.Bubble, m: O.Message)
    requires Inv(x) && Enabled(x, Written(b, m))
    ensures Inv(Apply(x, Written(b, m)))
  {
    hide SR.Inv, R.Inv, DiskBare, Settled, AllExplained;
    SR.StepInv(x.w, S.Enqueued(m));
    KeepsDiskBare(x.w, S.Enqueued(m));
    AcceptFrame(x.w, m);
    OneCopyReach(x.w.log, x.fans, x.copies, b, m.recipient);
    ExplainReach(x.book.cache.views, x.fans, x.copies, x.sent, b, m.recipient);
    if !O.Full(x.w.queue) {
      OneCopyAppend(x.w.log, x.fans, x.copies, b, m);
      LoggedAppend(x.w.log, x.w.number, x.copies, m);
      FreshId(x, m.id);
      ExplainWritten(x.book.cache.views, x.fans, x.copies, x.sent, b, m.recipient, m.id);
    }
  }

  lemma FreshId(x: State, id: string)
    requires Inv(x) && id !in x.w.number
    ensures id !in x.sent
  {
    if id in x.sent {
      KnownIds(x, id);
    }
  }

  lemma KeepsByNoted(x: State, m: O.Message)
    requires Inv(x) && Enabled(x, Noted(m))
    ensures Inv(Apply(x, Noted(m)))
  {
    hide SR.Inv, R.Inv, DiskBare, OneCopy, CopiesLogged, Settled, AllExplained;
    SR.StepInv(x.w, S.Enqueued(m));
    KeepsDiskBare(x.w, S.Enqueued(m));
    AcceptFrame(x.w, m);
    if !O.Full(x.w.queue) {
      OneCopyNote(x.w.log, x.fans, x.copies, m);
      LoggedAppend(x.w.log, x.w.number, x.copies, m);
    }
  }

  lemma AcceptFrame(w: S.World, m: O.Message)
    ensures var w' := S.Accept(w, m);
            && w'.workers == w.workers && w'.fate == w.fate && w'.clock == w.clock
            && w'.log == (if O.Full(w.queue) then w.log else w.log + [m])
            && w'.number == if O.Full(w.queue) then w.number else w.number[m.id := |w.log|]
  {
  }

  lemma LoggedAppend(log: seq<O.Message>, number: map<string, nat>, copies: map<Pair, string>, m: O.Message)
    requires CopiesLogged(log, number, copies) && m.id !in number
    ensures CopiesLogged(log + [m], number[m.id := |log|], copies)
    ensures m.bubble.Some? ==>
              CopiesLogged(log + [m], number[m.id := |log|], copies[(m.bubble.value, m.recipient) := m.id])
  {
  }

  lemma KeepsBySkipped(x: State, b: M.Bubble, member: Bytes)
    requires Inv(x) && Enabled(x, Skipped(b, member))
    ensures Inv(Apply(x, Skipped(b, member)))
  {
    hide SR.Inv, R.Inv, DiskBare, OneCopy, CopiesLogged, Settled, AllExplained;
    OneCopyReach(x.w.log, x.fans, x.copies, b, member);
    ExplainReach(x.book.cache.views, x.fans, x.copies, x.sent, b, member);
  }

  lemma KeepsByLooked(x: State, id: Bytes)
    requires Inv(x)
    ensures Inv(Apply(x, Looked(id)))
  {
    hide SR.Inv, R.Inv, DiskBare, OneCopy, CopiesLogged, Settled, AllExplained;
    R.StepInv(x.book, R.Look(id));
    LookFrame(x.book, id);
  }

  lemma LookFrame(k: R.Book, id: Bytes)
    ensures R.Apply(k, R.Look(id)).cache.views == k.cache.views && R.Apply(k, R.Look(id)).clock == k.clock
  {
  }

  // ---- Sends that return ---------------------------------------------------

  /** A message being sent has not been sent: its one holder has not come back yet. */
  lemma NotSentYet(w: S.World, sent: map<string, Bytes>, k: nat)
    requires S.Exclusive(w) && S.Conserved(w) && Settled(w.workers, w.fate, sent)
    requires k < |w.workers| && w.workers[k].Sending?
    ensures w.workers[k].id !in sent
  {
    var id := w.workers[k].id;
    assert id in S.HeldIds(w.workers);
    forall l, raw | 0 <= l < |w.workers| && w.workers[l].Returned? && w.workers[l].outcome == O.Sent(raw)
      ensures w.workers[l].id != id
    {
      assert w.workers[l].Busy() && w.workers[k].Busy();
    }
  }

  lemma HeldUpdate(workers: seq<S.Worker>, k: nat, y: S.Worker, id: string, raw: Bytes)
    requires k < |workers| && Held(workers, id, raw) && !(workers[k].Returned? && workers[k].id == id)
    ensures Held(workers[k := y], id, raw)
  {
    var l :| 0 <= l < |workers| && workers[l].Returned? && workers[l].id == id && workers[l].outcome == O.Sent(raw);
    assert workers[k := y][l] == workers[l];
  }

  lemma SettledByReturn(workers: seq<S.Worker>, fate: map<string, S.Fate>, sent: map<string, Bytes>, k: nat,
                        o: O.Outcome)
    requires Settled(workers, fate, sent) && k < |workers| && workers[k].Sending? && workers[k].id !in sent
    ensures var y := S.Returned(workers[k].id, workers[k].attempts, workers[k].propagated, o);
            Settled(workers[k := y], fate, if o.Sent? then sent[workers[k].id := o.msgId] else sent)
  {
    var id := workers[k].id;
    var y := S.Returned(id, workers[k].attempts, workers[k].propagated, o);
    var sent' := if o.Sent? then sent[id := o.msgId] else sent;
    forall i | i in sent'
      ensures (i in fate && fate[i].WasDelivered?) || Held(workers[k := y], i, sent'[i])
    {
      if i == id {
        assert workers[k := y][k] == y;
      } else if !(i in fate && fate[i].WasDelivered?) {
        HeldUpdate(workers, k, y, i, sent[i]);
      }
    }
  }

  /** The copy a worker is sending, as the fan-out wrote it. */
  lemma CopyInHand(w: S.World, fans: map<M.Bubble, Fan>, copies: map<Pair, string>, id: string)
    requires S.Ordered(w) && SO.Faithful(w) && id in O.Ids(w.queue.pending)
    requires OneCopy(w.log, fans, copies) && CopiesLogged(w.log, w.number, copies)
    ensures var m := w.queue.pending[O.IndexOf(w.queue.pending, id)];
            && (m.bubble.Some? ==>
                  var p := (m.bubble.value, m.recipient);
                  p in copies && copies[p] == id && p.0 in fans && p.1 != fans[p.0].sender)
            && (forall p :: p in copies && copies[p] == id ==> m.bubble == Some(p.0) && m.recipient == p.1)
  {
    var m := w.queue.pending[O.IndexOf(w.queue.pending, id)];
    assert SO.SameLetter(m, w.log[w.number[id]]);
  }

  lemma ExplainSuccess(views: map<M.Bubble, map<M.Hex, M.Hex>>, fans: map<M.Bubble, Fan>, copies: map<Pair, string>,
                       sent: map<string, Bytes>, p: Pair, raw: Bytes)
    requires AllExplained(views, fans, copies, sent) && p in copies && copies[p] !in sent && p.0 in fans
    requires p.1 != fans[p.0].sender && forall p, q :: p in copies && q in copies && copies[p] == copies[q] ==> p == q
    ensures Encode(p.1) !in views[p.0]
    ensures var views' := if raw == [] then views else views[p.0 := views[p.0][Encode(p.1) := Encode(raw)]];
            AllExplained(views', fans, copies, sent[copies[p] := raw])
  {
    var views' := if raw == [] then views else views[p.0 := views[p.0][Encode(p.1) := Encode(raw)]];
    NoViewYet(p.0, views[p.0], fans[p.0], copies, sent, p.1);
    forall b | b in fans
      ensures Explained(b, views'[b], fans[b], copies, sent[copies[p] := raw])
    {
      if b == p.0 && raw != [] {
        ExplainSend(b, views[b], fans[b], copies, sent, p.1, raw);
      } else {
        ExplainOther(b, views[b], fans[b], copies, sent, copies[p], raw);
      }
    }
  }

  lemma ExplainNotice(views: map<M.Bubble, map<M.Hex, M.Hex>>, fans: map<M.Bubble, Fan>, copies: map<Pair, string>,
                      sent: map<string, Bytes>, id: string, raw: Bytes)
    requires AllExplained(views, fans, copies, sent) && id !in sent && forall p :: p in copies ==> copies[p] != id
    ensures AllExplained(views, fans, copies, sent[id := raw])
  {
    forall b | b in fans
      ensures Explained(b, views[b], fans[b], copies, sent[id := raw])
    {
      ExplainOther(b, views[b], fans[b], copies, sent, id, raw);
    }
  }

  /** The worker's registration is always the pair's first. */
  lemma ViewsByReturned(x: State, k: nat, raw: Bytes)
    requires Inv(x) && Enabled(x, Returned(k, O.Sent(raw)))
    ensures var x' := Return(x, k, O.Sent(raw));
            && AllExplained(x'.book.cache.views, x'.fans, x'.copies, x'.sent)
            && R.Inv(x'.book) && x'.book.clock == x.book.clock
  {
    hide S.Exclusive, S.Conserved, S.Ordered, SO.Faithful, Settled, R.Inv, Register;
    var id := x.w.workers[k].id;
    var m := x.w.queue.pending[O.IndexOf(x.w.queue.pending, id)];
    NotSentYet(x.w, x.sent, k);
    CopyInHand(x.w, x.fans, x.copies, id);
    if m.bubble.Some? {
      var p := (m.bubble.value, m.recipient);
      ExplainSuccess(x.book.cache.views, x.fans, x.copies, x.sent, p, raw);
      RegisterViews(x.book, p.0, p.1, raw);
      RegisterKeeps(x.book, p.0, p.1, raw);
    } else {
      ExplainNotice(x.book.cache.views, x.fans, x.copies, x.sent, id, raw);
    }
  }

  lemma KeepsByReturned(x: State, k: nat, o: O.Outcome)
    requires Inv(x) && Enabled(x, Returned(k, o))
    ensures Inv(Apply(x, Returned(k, o)))
  {
    SR.StepInv(x.w, S.SendReturned(k, o));
    KeepsDiskBare(x.w, S.SendReturned(k, o));
    NotSentYet(x.w, x.sent, k);
    SettledByReturn(x.w.workers, x.w.fate, x.sent, k, o);
    if o.Sent? {
      ViewsByReturned(x, k, o.msgId);
    }
  }

  // ---- The other queue steps -----------------------------------------------

  lemma SettledTurn(workers: seq<S.Worker>, fate: map<string, S.Fate>, sent: map<string, Bytes>, k: nat, y: S.Worker)
    requires Settled(workers, fate, sent) && k < |workers| && !workers[k].Returned? && !y.Returned?
    ensures Settled(workers[k := y], fate, sent)
  {
    forall i | i in sent && !(i in fate && fate[i].WasDelivered?)
      ensures Held(workers[k := y], i, sent[i])
    {
      HeldUpdate(workers, k, y, i, sent[i]);
    }
  }

  lemma SettledExpire(workers: seq<S.Worker>, fate: map<string, S.Fate>, sent: map<string, Bytes>, gone: set<string>)
    requires Settled(workers, fate, sent) && gone !! fate.Keys
    ensures Settled(workers, S.Expire(fate, gone), sent)
  {
    var fate' := S.Expire(fate, gone);
    assert forall i :: i in fate ==> fate'[i] == fate[i];
    assert forall i :: i in gone ==> fate'[i] == S.WasExpired;
  }

  lemma SettledByPick(w: S.World, sent: map<string, Bytes>, k: nat, now: Time, answers: seq<Option<Time>>)
    requires S.Conserved(w) && Settled(w.workers, w.fate, sent) && k < |w.workers| && w.workers[k].Idle?
    ensures Settled(S.Choose(w, k, now, answers).workers, S.Choose(w, k, now, answers).fate, sent)
  {
    var gone := O.ExpiredIds(w.queue.pending, w.queue.inFlight, now);
    O.NobodyHoldsExpired(w.queue.pending, w.queue.inFlight, now);
    SettledExpire(w.workers, w.fate, sent, gone);
    var r := O.PickDue(w.queue, now, answers);
    if r.1.Some? {
      SettledTurn(w.workers, S.Expire(w.fate, gone), sent, k, S.Holding(r.0.pending[r.1.value].id));
    }
  }

  /** Freeing a worker whose success is now on record. */
  lemma SettledFree(workers: seq<S.Worker>, fate: map<string, S.Fate>, sent: map<string, Bytes>, k: nat,
                    fate': map<string, S.Fate>)
    requires Settled(workers, fate, sent) && S.HoldApart(workers) && k < |workers| && workers[k].Returned?
    requires workers[k].id !in fate
    requires fate' == fate || (workers[k].id in fate' && fate' == fate[workers[k].id := fate'[workers[k].id]])
    requires workers[k].outcome.Sent? <==> workers[k].id in fate' && fate'[workers[k].id].WasDelivered?
    ensures Settled(workers[k := S.Idle], fate', sent)
  {
    var id := workers[k].id;
    forall i | i in sent && !(i in fate' && fate'[i].WasDelivered?)
      ensures Held(workers[k := S.Idle], i, sent[i])
    {
      var l :| 0 <= l < |workers| && workers[l].Returned? && workers[l].id == i
        && workers[l].outcome == O.Sent(sent[i]);
      assert l != k;
      assert workers[k := S.Idle][l] == workers[l];
    }
  }

  lemma SettledByFinish(w: S.World, sent: map<string, Bytes>, k: nat, hasNode: bool)
    requires S.Exclusive(w) && S.Conserved(w) && Settled(w.workers, w.fate, sent)
             && S.Enabled(w, S.Finished(k, hasNode))
    ensures Settled(S.Settle(w, k, hasNode).workers, S.Settle(w, k, hasNode).fate, sent)
  {
    SettledFree(w.workers, w.fate, sent, k, S.Settle(w, k, hasNode).fate);
  }

  lemma KeepsSettled(w: S.World, sent: map<string, Bytes>, e: S.Event)
    requires S.Exclusive(w) && S.Conserved(w) && Settled(w.workers, w.fate, sent) && S.Enabled(w, e)
    requires !e.SendReturned? && !e.Restarted?
    ensures Settled(S.Apply(w, e).workers, S.Apply(w, e).fate, sent)
  {
    match e
    case Enqueued(m) => AcceptFrame(w, m);
    case Picked(k, now, answers) => SettledByPick(w, sent, k, now, answers);
    case Began(k) => SettledTurn(w.workers, w.fate, sent, k, S.Start(w, k).workers[k]);
    case Finished(k, hasNode) => SettledByFinish(w, sent, k, hasNode);
    case _ => S.QuietFrame(w, e);
  }

  lemma LogStands(w: S.World, e: S.Event)
    requires S.Enabled(w, e) && !e.Enqueued? && !e.Restarted?
    ensures var w' := S.Apply(w, e);
            w'.log == w.log && w'.number == w.number && w'.clock == if e.Tick? then e.t else w.clock
  {
    match e
    case Picked(k, now, answers) =>
    case Began(k) =>
    case SendReturned(k, o) =>
    case Finished(k, hasNode) =>
    case _ => S.QuietFrame(w, e);
  }

  lemma ClockKeeps(k: R.Book, t: Time)
    requires R.Inv(k)
    ensures R.Inv(k.(clock := t))
  {
    R.KeptSame(k.cache, k, k);
  }

  lemma KeepsByQueue(x: State, e: S.Event)
    requires Inv(x) && Enabled(x, Queue(e)) && !e.Restarted?
    ensures Inv(Apply(x, Queue(e)))
  {
    SR.StepInv(x.w, e);
    KeepsDiskBare(x.w, e);
    KeepsSettled(x.w, x.sent, e);
    LogStands(x.w, e);
    if e.Tick? {
      ClockKeeps(x.book, e.t);
    }
  }

  lemma NewBookInv(k: R.Book)
    ensures R.Init(NewBook(k)) && R.Inv(NewBook(k))
  {
  }

  lemma StartInv(x: State)
    requires SR.Inv(x.w) && R.Inv(x.book) && x.book.clock == x.w.clock && DiskBare(x.w) && Bare(x.w.log)
    requires x.book.cache.views == map[] && x.fans == map[] && x.copies == map[] && x.sent == map[]
    requires x.w.fate == map[] && forall k :: 0 <= k < |x.w.workers| ==> x.w.workers[k].Idle?
    ensures Inv(x)
  {
  }

  lemma BootFacts(w: S.World, p: O.Policy)
    requires Bare(w.disk)
    ensures var b := S.Boot(w, p);
            && b.clock == w.clock && DiskBare(b) && Bare(b.log) && b.fate == map[]
            && forall k :: 0 <= k < |b.workers| ==> b.workers[k].Idle?
  {
    BareLoad(p, w.disk);
  }

  lemma BootInv(w: S.World, p: O.Policy)
    requires SR.Inv(w) && p.Valid()
    ensures SR.Inv(S.Boot(w, p))
  {
    SR.StepInv(w, S.Restarted(p));
  }

  lemma KeepsByRestart(x: State, p: O.Policy)
    requires Inv(x) && p.Valid()
    ensures Inv(Reboot(x, p))
  {
    BootInv(x.w, p);
    BootFacts(x.w, p);
    NewBookInv(x.book);
    StartInv(Reboot(x, p));
  }

  lemma StepInv(x: State, e: Event)
    requires Inv(x) && Enabled(x, e)
    ensures Inv(Apply(x, e))
  {
    hide Inv;
    match e
    case Relayed(b, t, fan) => KeepsByRelayed(x, b, t, fan);
    case Written(b, m) => KeepsByWritten(x, b, m);
    case Skipped(b, member) => KeepsBySkipped(x, b, member);
    case Noted(m) => KeepsByNoted(x, m);
    case Returned(k, o) => KeepsByReturned(x, k, o);
    case Looked(id) => KeepsByLooked(x, id);
    case Queue(q) =>
      if q.Restarted? {
        KeepsByRestart(x, q.policy);
      } else {
        KeepsByQueue(x, q);
      }
  }

  // ---- Runs ----------------------------------------------------------------

  predicate Run(xs: seq<State>, es: seq<Event>) {
    && |xs| == |es| + 1
    && Init(xs[0])
    && (forall i {:trigger es[i]} :: 0 <= i < |es| ==> Enabled(xs[i], es[i]) && xs[i + 1] == Apply(xs[i], es[i]))
  }

  lemma Step(xs: seq<State>, es: seq<Event>, i: nat)
    requires Run(xs, es) && i < |es|
    ensures Enabled(xs[i], es[i]) && xs[i + 1] == Apply(xs[i], es[i])
  {
  }

  lemma BareStart(w: S.World)
    requires S.Init(w)
    ensures Bare(w.disk) && Bare(w.log) && DiskBare(w) && w.fate == map[]
    ensures forall k :: 0 <= k < |w.workers| ==> w.workers[k].Idle?
  {
    BareLoad(w.policy, w.disk);
  }

  lemma InitInv(x: State)
    requires Init(x)
    ensures Inv(x)
  {
    SR.InitInv(x.w);
    BareStart(x.w);
    InitBook(x.book);
    StartInv(x);
  }

  lemma InitBook(k: R.Book)
    requires R.Init(k)
    ensures R.Inv(k)
  {
  }

  lemma {:induction false} Reachable(xs: seq<State>, es: seq<Event>, n: nat)
    requires Run(xs, es) && n < |xs|
    ensures Inv(xs[n])
  {
    hide Inv, Apply;
    if n == 0 {
      InitInv(xs[0]);
    } else {
      Reachable(xs, es, n - 1);
      Step(xs, es, n - 1);
      StepInv(xs[n - 1], es[n - 1]);
    }
  }
}
