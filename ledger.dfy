/** The entity round ledger: team_round_cache and player_round_cache map (entity, season) to
    the last round committed for it (database_build.py:116-127, 317, 598-599). */
module Ledger {
  import opened Common

  /** The identity of one per-round record: (name or player id, season, round). */
  datatype Key = Key(ident: string, season: int, round: int)

  type RoundCache = map<(string, int), int>

  /** get_round_number and get_player_round: the round the entity's next match gets. */
  function NextRound(cache: RoundCache, entity: string, season: int): int {
    Get(cache, (entity, season), 0) + 1
  }

  /** The records present are exactly rounds 1..last of every (entity, season) in the cache:
      round numbers start at 1 and have no gaps. */
  ghost predicate Contiguous(cache: RoundCache, keys: set<Key>) {
    && (forall p :: p in cache ==> cache[p] >= 0)
    && (forall k :: k in keys ==>
          (k.ident, k.season) in cache && 1 <= k.round <= cache[(k.ident, k.season)])
    && (forall e, s, r :: (e, s) in cache && 1 <= r <= cache[(e, s)] ==> Key(e, s, r) in keys)
  }

  /** Under the ledger invariant the peeked round is fresh and directly follows every round
      already recorded for the entity. */
  lemma NextRoundIsFresh(cache: RoundCache, keys: set<Key>, e: string, s: int)
    requires Contiguous(cache, keys)
    ensures NextRound(cache, e, s) >= 1
    ensures Key(e, s, NextRound(cache, e, s)) !in keys
    ensures forall r :: 1 <= r < NextRound(cache, e, s) ==> Key(e, s, r) in keys
  {
  }

  /** The commit after a match: every entity of `ids` gets the round peeked before the match. */
  function CommitAll(cache: RoundCache, ids: set<string>, s: int): (c: RoundCache)
    ensures c.Keys == cache.Keys + set id | id in ids :: (id, s)
  {
    map k | k in cache.Keys + (set id | id in ids :: (id, s)) ::
      if k.1 == s && k.0 in ids then NextRound(cache, k.0, s) else cache[k]
  }

  /** The records a match adds: one per committed entity, at its peeked round. */
  function NewKeys(cache: RoundCache, ids: set<string>, s: int): set<Key> {
    set id | id in ids :: Key(id, s, NextRound(cache, id, s))
  }

  /** Committing the peeked rounds while adding exactly those records keeps the ledger
      contiguous. */
  lemma CommitKeepsContiguous(cache: RoundCache, keys: set<Key>, ids: set<string>, s: int)
    requires Contiguous(cache, keys)
    ensures Contiguous(CommitAll(cache, ids, s), keys + NewKeys(cache, ids, s))
  {
    var c := CommitAll(cache, ids, s);
    var ks := keys + NewKeys(cache, ids, s);
    forall k | k in ks
      ensures (k.ident, k.season) in c && 1 <= k.round <= c[(k.ident, k.season)]
    {
      if k in keys {
        var p := (k.ident, k.season);
        assert p in cache && k.round <= cache[p];
        assert c[p] >= cache[p];
      } else {
        var id :| id in ids && k == Key(id, s, NextRound(cache, id, s));
        assert c[(id, s)] == NextRound(cache, id, s);
      }
    }
    forall e, t, r | (e, t) in c && 1 <= r <= c[(e, t)]
      ensures Key(e, t, r) in ks
    {
      if t == s && e in ids {
        if r == NextRound(cache, e, s) {
          assert Key(e, t, r) in NewKeys(cache, ids, s);
        } else {
          assert (e, t) in cache;
        }
      }
    }
  }

  /** team_stats' commit: home then away, each to the round peeked before the match. */
  function TeamCommit(cache: RoundCache, home: string, away: string, s: int): RoundCache {
    cache[(home, s) := NextRound(cache, home, s)][(away, s) := NextRound(cache, away, s)]
  }

  lemma TeamCommitIsCommitAll(cache: RoundCache, home: string, away: string, s: int)
    ensures TeamCommit(cache, home, away, s) == CommitAll(cache, {home, away}, s)
  {
  }

  /** The rounds that a sequence of (home, away, season) matches assigns to `team` in
      `season`, in processing order. */
  function AssignedRounds(cache: RoundCache, ms: seq<(string, string, int)>, team: string,
                          season: int): seq<int>
    decreases |ms|
  {
    if ms == [] then []
    else
      var (h, a, s) := ms[0];
      (if s == season && (h == team || a == team) then [NextRound(cache, team, season)] else [])
      + AssignedRounds(TeamCommit(cache, h, a, s), ms[1..], team, season)
  }

  /** start, start + 1, ..., start + n - 1 */
  function Consecutive(start: int, n: nat): (xs: seq<int>)
    ensures |xs| == n && forall i :: 0 <= i < n ==> xs[i] == start + i
  {
    seq(n, i => start + i)
  }

  /** Processing matches in order hands every team the rounds 1, 2, 3, ... of a season (from an
      empty cache), or continues from the last committed round: no gaps, no repeats. */
  lemma {:induction false} RoundsAreConsecutive(cache: RoundCache, ms: seq<(string, string, int)>,
                                                team: string, season: int)
    ensures var rs := AssignedRounds(cache, ms, team, season);
            rs == Consecutive(NextRound(cache, team, season), |rs|)
    decreases |ms|
  {
    if ms != [] {
      var (h, a, s) := ms[0];
      var c' := TeamCommit(cache, h, a, s);
      RoundsAreConsecutive(c', ms[1..], team, season);
      if s == season && (h == team || a == team) {
        assert NextRound(c', team, season) == NextRound(cache, team, season) + 1;
      } else {
        assert NextRound(c', team, season) == NextRound(cache, team, season);
      }
    }
  }
}
