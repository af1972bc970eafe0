/** The cache in the source's own form: maps and the eviction list changed in place,
    eviction loops, proved equal to the transitions in `IdMap`. */
module IdCache {
  import opened Prelude
  import M = IdMap

  class IdCache {
    const maxSize: nat
    var byMsgId: map<M.Hex, M.Bubble>
    var lru: seq<M.Bubble>
    var views: map<M.Bubble, map<M.Hex, M.Hex>>
    var expires: map<M.Bubble, Time>

    ghost function Model(): M.Cache
      reads this
    {
      M.Cache(byMsgId, lru, views, expires, maxSize)
    }

    constructor (maxSize: int)
      ensures Model() == M.Cache(map[], [], map[], map[], if maxSize < 0 then 0 else maxSize)
      ensures M.Valid(Model())
    {
      this.maxSize := if maxSize < 0 then 0 else maxSize;
      byMsgId, lru, views, expires := map[], [], map[], map[];
    }

    method NewBubble(b: M.Bubble, ttl: Time, now: Time)
      modifies this
      ensures Model() == M.NewBubble(old(Model()), b, now + ttl)
    {
      views := views[b := map[]];
      expires := expires[b := now + ttl];
    }

    method ViewFor(b: M.Bubble, recipient: M.Hex) returns (id: Option<M.Hex>)
      ensures id == M.ViewFor(Model(), b, recipient)
    {
      if b in views && recipient in views[b] {
        return Some(views[b][recipient]);
      }
      return None;
    }

    /** Unlinks a bubble from every key it is a view of, then from the list. */
    method RemoveBubble(b: M.Bubble)
      modifies this`byMsgId, this`lru
      ensures Model() == M.RemoveBubble(old(Model()), b)
    {
      var keys := if b in views then views[b].Values else {};
      ghost var all := keys;
      while keys != {}
        invariant keys <= all
        invariant byMsgId == old(byMsgId) - (all - keys)
        invariant lru == old(lru)
      {
        var id :| id in keys;
        byMsgId := byMsgId - {id};
        keys := keys - {id};
      }
      lru := M.Without(lru, b);
    }

    /** Walks the list from its old end, stopping at the first survivor. */
    method EvictExpired(now: Time)
      modifies this`byMsgId, this`lru
      ensures Model() == M.EvictExpired(old(Model()), now)
    {
      while |lru| > 0
        invariant M.EvictExpired(Model(), now) == M.EvictExpired(old(Model()), now)
        invariant views == old(views) && expires == old(expires)
        decreases |lru|
      {
        var b := lru[|lru| - 1];
        var expiry := if b in expires then expires[b] else 0;
        if now <= expiry {
          return;
        }
        M.Shrinks(lru);
        RemoveBubble(b);
      }
    }

    method EnforceCap()
      modifies this`byMsgId, this`lru
      ensures Model() == M.EnforceCap(old(Model()))
    {
      if maxSize == 0 {
        return;
      }
      while |byMsgId| > maxSize
        invariant M.EnforceCap(Model()) == M.EnforceCap(old(Model()))
        invariant views == old(views) && expires == old(expires)
        decreases |lru|
      {
        if |lru| == 0 {
          return;
        }
        M.Shrinks(lru);
        RemoveBubble(lru[|lru| - 1]);
      }
    }

    /** Accepts any registration; a pair's first one also keeps the structure and the cap. */
    method RegisterView(b: M.Bubble, recipient: M.Hex, id: M.Hex, now: Time)
      modifies this
      ensures Model() == M.RegisterView(old(Model()), b, recipient, id, now)
      ensures old(M.Valid(Model()) && recipient !in M.ViewsOf(Model(), b)) ==>
                M.Valid(Model()) && (id != [] && maxSize > 0 ==> |byMsgId| <= maxSize)
    {
      ghost var c := Model();
      if M.Valid(c) && recipient !in M.ViewsOf(c, b) {
        M.RegisterValid(c, b, recipient, id, now);
      }
      if id == [] {
        return;
      }
      EvictExpired(now);
      var own := if b in views then views[b] else map[];
      views := views[b := own[recipient := id]];
      byMsgId := byMsgId[id := b];
      lru := M.MoveToFront(lru, b);
      EnforceCap();
    }

    method Lookup(id: M.Hex, now: Time) returns (hit: Option<M.Bubble>)
      modifies this`byMsgId, this`lru
      ensures (Model(), hit) == M.Lookup(old(Model()), id, now)
      ensures old(M.Valid(Model())) ==> M.Valid(Model())
    {
      ghost var c := Model();
      if M.Valid(c) {
        M.LookupValid(c, id, now);
      }
      if id !in byMsgId {
        return None;
      }
      var b := byMsgId[id];
      var expiry := if b in expires then expires[b] else 0;
      if now > expiry {
        RemoveBubble(b);
        return None;
      }
      if b in lru {
        lru := M.MoveToFront(lru, b);
      }
      return Some(b);
    }
  }
}
