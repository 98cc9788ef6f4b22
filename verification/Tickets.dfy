/** Single-use WebSocket tickets: the map with opportunistic garbage collection against the
    history of calls. Times are milliseconds; tokens come from the random source. */
module Tickets {
  import opened Wrappers

  const TTL := 30000

  /** The tickets left after dropping those expired at `now`. */
  function Collected(m: map<string, int>, now: int): map<string, int> {
    map k | k in m && m[k] >= now :: m[k]
  }

  class WsTickets {
    var m: map<string, int>

    constructor ()
      ensures m == map[]
    {
      m := map[];
    }

    /** `issue`: the first clock reading dates the ticket, the second drives the collection. */
    method Issue(tok: string, at: int, gcAt: int)
      modifies this
      ensures m == Collected(old(m)[tok := at + TTL], gcAt)
      ensures tok in m <==> at + 30000 >= gcAt
      ensures tok in m ==> m[tok] == at + 30000
    {
      m := m[tok := at + TTL];
      ghost var all := m;
      var left := m.Keys;
      while left != {}
        invariant left <= all.Keys && m.Keys <= all.Keys
        invariant forall k :: k in m ==> m[k] == all[k]
        invariant forall k :: k in all ==> (k in m <==> k in left || all[k] >= gcAt)
        decreases left
      {
        var k :| k in left;
        left := left - {k};
        if gcAt > m[k] {
          m := m - {k};
        }
      }
      assert m == Collected(all, gcAt);
    }

    method Consume(tok: string, at: int) returns (valid: bool)
      modifies this
      ensures valid == Answer(old(m), tok, at)
      ensures m == old(m) - if tok == "" then {} else {tok}
    {
      if tok == "" {
        assert m - {} == m;
        return false;
      }
      var found := tok in m;
      valid := found && at < m[tok];
      if found {
        m := m - {tok};
      } else {
        assert m - {tok} == m;
      }
    }
  }

  predicate Answer(m: map<string, int>, tok: string, at: int) {
    tok != "" && tok in m && at < m[tok]
  }

  // ----- histories -----

  datatype Call = Issue(tok: string, at: int, gcAt: int) | Consume(tok: string, at: int)

  /** The map after a history of calls; `gc` says whether `issue` collects. */
  function After(calls: seq<Call>, gc: bool): map<string, int> {
    if calls == [] then map[]
    else
      var m := After(calls[..|calls| - 1], gc);
      match calls[|calls| - 1]
      case Issue(tok, at, gcAt) => if gc then Collected(m[tok := at + TTL], gcAt) else m[tok := at + TTL]
      case Consume(tok, _) => if tok == "" then m else m - {tok}
  }

  function TimeOf(c: Call): int {
    match c case Issue(_, _, gcAt) => gcAt case Consume(_, at) => at
  }

  /** The clock never goes back, and no token is empty. */
  ghost predicate Clocked(calls: seq<Call>, now: int) {
    if calls == [] then true
    else
      var c := calls[|calls| - 1];
      && TimeOf(c) <= now
      && (c.Issue? ==> c.at <= c.gcAt && c.tok != "")
      && Clocked(calls[..|calls| - 1], c.at)
  }

  /** When `tok` was last issued, if it has not been consumed since. */
  function Outstanding(calls: seq<Call>, tok: string): Option<int> {
    if calls == [] then None
    else
      match calls[|calls| - 1]
      case Issue(t, at, _) => if t == tok then Some(at) else Outstanding(calls[..|calls| - 1], tok)
      case Consume(t, _) => if t == tok then None else Outstanding(calls[..|calls| - 1], tok)
  }

  /** What the map knows of a token: its expiry, or nothing once that has passed. */
  lemma {:induction false} MapTracksHistory(calls: seq<Call>, now: int, tok: string, gc: bool)
    requires Clocked(calls, now) && tok != ""
    ensures match Outstanding(calls, tok)
            case None => tok !in After(calls, gc)
            case Some(at) => if tok in After(calls, gc) then After(calls, gc)[tok] == at + TTL else gc && at + TTL < now
  {
    if calls != [] {
      var c := calls[|calls| - 1];
      MapTracksHistory(calls[..|calls| - 1], c.at, tok, gc);
    }
  }

  /** Over every history with a monotone clock, `consume(tok)` answers true exactly when `tok`
      was issued strictly less than the lifetime ago and not consumed since. */
  lemma {:induction false} ConsumeMeetsHistory(calls: seq<Call>, now: int, tok: string)
    requires Clocked(calls, now)
    ensures Answer(After(calls, true), tok, now) <==>
      tok != "" && Outstanding(calls, tok).Some? && now < Outstanding(calls, tok).value + 30000
  {
    if tok != "" {
      MapTracksHistory(calls, now, tok, true);
    }
  }

  /** The collection inside `issue` never changes any answer. */
  lemma {:induction false} CollectionIsInvisible(calls: seq<Call>, now: int, tok: string)
    requires Clocked(calls, now)
    ensures Answer(After(calls, true), tok, now) == Answer(After(calls, false), tok, now)
  {
    if tok != "" {
      MapTracksHistory(calls, now, tok, true);
      MapTracksHistory(calls, now, tok, false);
    }
  }

  lemma {:induction false} ConsumedStaysConsumed(calls: seq<Call>, i: nat, tok: string)
    requires i < |calls| && calls[i].Consume? && calls[i].tok == tok
    requires forall k :: i < k < |calls| ==> !(calls[k].Issue? && calls[k].tok == tok)
    ensures Outstanding(calls, tok) == None
  {
    if i < |calls| - 1 {
      ConsumedStaysConsumed(calls[..|calls| - 1], i, tok);
    }
  }

  /** With fresh tokens a ticket opens at most one socket: once presented, it is refused for
      ever after. */
  lemma {:induction false} SingleUse(calls: seq<Call>, i: nat, now: int, tok: string)
    requires Clocked(calls, now) && i < |calls| && calls[i].Consume? && calls[i].tok == tok
    requires forall k :: i < k < |calls| ==> !(calls[k].Issue? && calls[k].tok == tok)
    ensures !Answer(After(calls, true), tok, now)
  {
    ConsumedStaysConsumed(calls, i, tok);
    ConsumeMeetsHistory(calls, now, tok);
  }
}
