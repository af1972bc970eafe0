/** All of `onLXMFReceived` (internal/service/inbox.go): duplicate suppression, the roster's
    part, and, for a chat message that goes on, the path to the group. */
module Inbox {
  import opened Prelude
  import opened Hex
  import opened Fields
  import opened RewriteHeap
  import T = Attachments
  import P = Planning
  import F = Fanout
  import I = Inbound
  import A = Authority
  import C = Commands
  import D = Dedup
  import G = GroupChat
  import M = IdMap
  import opened IdCache
  import opened Roster

  method OnReceived(cfg: A.Config, d: D.DedupCache, r: Roster, cache: IdCache, key: Bytes, p: A.Payload,
                    t: FieldTable, sizes: T.Sizes, m: I.Chat, policy: T.Policy, ttl: Time, b: M.Bubble, now: Time)
    returns (posts: seq<F.Post>, drops: seq<Key>, ghost job: Option<F.Job>, ghost letters: seq<F.Letter>)
    requires Canonical(View(t)) && t.m.Keys <= sizes.Keys && T.Accepted(policy)
    requires M.Valid(cache.Model()) && P.Solo(cache.Model()) && b !in cache.views
    modifies d, r, cache
    ensures d.seen == if key == [] then old(d.seen) else D.Next(old(d.seen), d.ttl, d.max, key, now)
    ensures var dup := key != [] && D.Seen(old(d.seen), d.ttl, key, now);
            r.State() == if dup then old(r.State()) else A.Received(cfg, old(r.State()), m.sender, p, now)
    ensures var dup := key != [] && D.Seen(old(d.seen), d.ttl, key, now);
            if !dup && p == A.Chat(false) && A.Active(old(r.State()), m.sender) && Encode(m.sender) !in old(r.banlist)
            then
              G.Outcome(letters, drops, job, old(View(t)), sizes, m, policy, ttl, r.users,
                        old(cache.Model()), cache.Model(), b, now)
            else letters == [] && cache.Model() == old(cache.Model())
    ensures |posts| == |letters| && forall i :: 0 <= i < |posts| ==> F.Shows(posts[i], letters[i])
  {
    hide A.Received, G.Outcome, D.Next, D.Seen, A.Active, Canonical, P.Solo, T.Accepted, F.Shows;
    ghost var f, c := View(t), cache.Model();
    var forwarded := C.ReceiveOnce(cfg, d, r, key, m.sender, p, now);
    assert View(t) == f && cache.Model() == c;
    if !forwarded {
      return [], [], None, [];
    }
    posts, drops, job, letters := G.ChatToGroup(r, t, sizes, m, policy, ttl, cache, b, now);
  }
}
