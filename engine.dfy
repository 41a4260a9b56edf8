/** team_stats (database_build.py:334-599): one match from its lineup and events to the
    global tables and the two round caches. The per-match tables are built aside; the globals
    change only at the end, by concatenation and the two cache commits. */
module Engine {
  import opened Common
  import opened Schema
  import opened Feed
  import opened Ledger
  import opened Records
  import opened Attribution
  import opened Dispatch
  import opened Roster
  import opened Finalize

  /** The module-level state team_stats reads and writes: the global `teams`, `players`,
      `goalkeepers`, and team_round_cache and player_round_cache. */
  datatype EngineState = EngineState(global: Tables, teamCache: RoundCache, playerCache: RoundCache)

  /** The ledger invariant: every record is well formed and each cache covers exactly the
      rounds 1..last of its entities' records. */
  ghost predicate Ledgered(st: EngineState) {
    && st.global.Valid()
    && Contiguous(st.teamCache, KeysOf(st.global.teams))
    && Contiguous(st.playerCache, PlayerKeys(st.global))
  }

  /** The opening of team_stats: the home row at the home team's next round, then the away
      row at the away team's; the team field of a team row is empty. */
  function OpenMatch(cache: RoundCache, season: int, home: string, away: string, date: string): (u: Tables)
    ensures u.Valid() && u.players == [] && u.keepers == []
    ensures KeysOf(u.teams) == NewKeys(cache, {home, away}, season)
  {
    var hm := NextRound(cache, home, season);
    var aw := NextRound(cache, away, season);
    var u := EmptyTables().(teams := [NewRow(TeamTable, Key(home, season, hm), home, date, ""),
                                      NewRow(TeamTable, Key(away, season, aw), away, date, "")]);
    assert KeysOf(u.teams) == {Key(home, season, hm), Key(away, season, aw)} by {
      assert u.teams[0].key == Key(home, season, hm) && u.teams[1].key == Key(away, season, aw);
    }
    assert u.Valid() by {
      forall t ensures AllWellFormed(t, u.Of(t)) {
      }
    }
    u
  }

  /** games_played home and away, the event loop, update_time_played and update_injuries, on
      the per-match tables `u`; `g` is the global tables. */
  function PlayMatch(u: Tables, g: Tables, ctx: MatchCtx, evs: seq<Event>): Result<Tables> {
    var u1 :- AppendValue(u, TeamTable, Key(ctx.home, ctx.season, ctx.hmRound), GamesPlayed, Some(Home), 1, false);
    var u2 :- AppendValue(u1, TeamTable, Key(ctx.away, ctx.season, ctx.awRound), GamesPlayed, Some(Away), 1, false);
    var u3 :- RunEvents(u2, ctx, evs, Fresh());
    var u4 :- UpdateTimePlayed(u3, ctx.reg, ctx.lineup, ctx.season, ctx.rounds, ProductSlots());
    UpdateInjuries(u4, g, ctx.reg, ctx.lineup, ctx.season, ctx.rounds, ProductSlots())
  }

  /** `pd.concat([global, per_match])` for each table: earlier matches first. */
  function Concat(g: Tables, u: Tables): (v: Tables)
    ensures forall t :: v.Of(t) == g.Of(t) + u.Of(t)
  {
    Tables(g.teams + u.teams, g.players + u.players, g.keepers + u.keepers)
  }

  /** The end of postprocess and team_stats: concatenation, then player_round_cache from
      player_rounds, then team_round_cache for home and away. */
  function Close(st: EngineState, u: Tables, ctx: MatchCtx): Result<EngineState> {
    var pc :- CommitPlayers(st.playerCache, ctx.reg, ctx.lineup, ctx.season, ctx.rounds, CommitSlots());
    Ok(EngineState(Concat(st.global, u), TeamCommit(st.teamCache, ctx.home, ctx.away, ctx.season), pc))
  }

  /** team_stats(match, season, home, away, date) with the match's lineup `l` and events
      `evs`; the first exception ends it. */
  function MatchOutcome(st: EngineState, reg: Registry, season: int, home: string, away: string, date: string,
                        l: Lineup, evs: seq<Event>): Result<EngineState>
  {
    var u0 := OpenMatch(st.teamCache, season, home, away, date);
    var (u1, rounds) :- InitPlayers(u0, reg, st.playerCache, l, season, date, ProductSlots(), map[]);
    var ctx := MatchCtx(reg, season, home, away, NextRound(st.teamCache, home, season),
                        NextRound(st.teamCache, away, season), l, rounds);
    var u2 :- PlayMatch(u1, st.global, ctx, evs);
    Close(st, u2, ctx)
  }

  lemma KeysOfConcat(a: seq<Row>, b: seq<Row>)
    ensures KeysOf(a + b) == KeysOf(a) + KeysOf(b)
  {
    var ab := a + b;
    forall k | k in KeysOf(a) ensures k in KeysOf(ab) {
      var i :| 0 <= i < |a| && a[i].key == k;
      assert ab[i] == a[i];
    }
    forall k | k in KeysOf(b) ensures k in KeysOf(ab) {
      var i :| 0 <= i < |b| && b[i].key == k;
      assert ab[|a| + i] == b[i];
    }
  }

  lemma AppendValueKeepsShape(u: Tables, t: TableId, k: Key, col: Stat, side: Option<Side>, value: int, time: bool)
    requires u.Valid() && AppendValue(u, t, k, col, side, value, time).Ok?
    ensures var v := AppendValue(u, t, k, col, side, value, time).value;
            Reshaped(u, v) && v.Valid()
  {
    AppendValueKeepsValid(u, t, k, col, side, value, time);
    var v := AppendValue(u, t, k, col, side, value, time).value;
    forall o ensures SameShape(u.Of(o), v.Of(o)) {
      if o != t {
        assert v.Of(o) == u.Of(o);
      }
    }
  }

  /** Everything between the player rows and the concatenation changes counter cells only. */
  lemma PlayMatchKeepsShape(u: Tables, g: Tables, ctx: MatchCtx, evs: seq<Event>)
    requires u.Valid() && PlayMatch(u, g, ctx, evs).Ok?
    ensures var v := PlayMatch(u, g, ctx, evs).value;
            Reshaped(u, v) && v.Valid()
  {
    var u1 := AppendValue(u, TeamTable, Key(ctx.home, ctx.season, ctx.hmRound), GamesPlayed, Some(Home), 1, false).value;
    AppendValueKeepsShape(u, TeamTable, Key(ctx.home, ctx.season, ctx.hmRound), GamesPlayed, Some(Home), 1, false);
    var u2 := AppendValue(u1, TeamTable, Key(ctx.away, ctx.season, ctx.awRound), GamesPlayed, Some(Away), 1, false).value;
    AppendValueKeepsShape(u1, TeamTable, Key(ctx.away, ctx.season, ctx.awRound), GamesPlayed, Some(Away), 1, false);
    var u3 := RunEvents(u2, ctx, evs, Fresh()).value;
    RunEventsKeepsShape(u2, ctx, evs, Fresh());
    var u4 := UpdateTimePlayed(u3, ctx.reg, ctx.lineup, ctx.season, ctx.rounds, ProductSlots()).value;
    UpdateTimePlayedKeepsShape(u3, ctx.reg, ctx.lineup, ctx.season, ctx.rounds, ProductSlots());
    UpdateInjuriesKeepsShape(u4, g, ctx.reg, ctx.lineup, ctx.season, ctx.rounds, ProductSlots());
    ReshapedTrans(u, u1, u2);
    ReshapedTrans(u, u2, u3);
    ReshapedTrans(u, u3, u4);
    ReshapedTrans(u, u4, PlayMatch(u, g, ctx, evs).value);
  }

  lemma ReshapedKeys(u: Tables, v: Tables)
    requires Reshaped(u, v)
    ensures KeysOf(v.teams) == KeysOf(u.teams) && PlayerKeys(v) == PlayerKeys(u)
  {
    assert SameShape(u.Of(TeamTable), v.Of(TeamTable));
    assert SameShape(u.Of(PlayerTable), v.Of(PlayerTable));
    assert SameShape(u.Of(KeeperTable), v.Of(KeeperTable));
    SameShapeKeys(u.teams, v.teams);
    SameShapeKeys(u.players, v.players);
    SameShapeKeys(u.keepers, v.keepers);
  }

  /** What a completed match consists of: per-match tables `u` holding one team record per
      side at the team's next round and one player record per lineup player at his next
      round, appended to the globals, and both caches committed to exactly those rounds. */
  lemma MatchOutcomeParts(st: EngineState, reg: Registry, season: int, home: string, away: string,
                          date: string, l: Lineup, evs: seq<Event>) returns (u: Tables)
    requires MatchOutcome(st, reg, season, home, away, date, l, evs).Ok?
    ensures u.Valid()
    ensures KeysOf(u.teams) == NewKeys(st.teamCache, {home, away}, season)
    ensures PlayerKeys(u) == NewKeys(st.playerCache, MatchIds(reg, l, season), season)
    ensures MatchOutcome(st, reg, season, home, away, date, l, evs).value
            == EngineState(Concat(st.global, u), CommitAll(st.teamCache, {home, away}, season),
                           CommitAll(st.playerCache, MatchIds(reg, l, season), season))
  {
    var ctx;
    u, ctx := MatchSteps(st, reg, season, home, away, date, l, evs);
    TeamCommitIsCommitAll(st.teamCache, home, away, season);
  }

  /** The three stages of team_stats: the opened and played per-match tables `u` and the
      context `ctx` whose player rounds the cache commit uses. */
  lemma MatchSteps(st: EngineState, reg: Registry, season: int, home: string, away: string,
                   date: string, l: Lineup, evs: seq<Event>) returns (u: Tables, ctx: MatchCtx)
    requires MatchOutcome(st, reg, season, home, away, date, l, evs).Ok?
    ensures u.Valid()
    ensures KeysOf(u.teams) == NewKeys(st.teamCache, {home, away}, season)
    ensures PlayerKeys(u) == NewKeys(st.playerCache, MatchIds(reg, l, season), season)
    ensures ctx.home == home && ctx.away == away && ctx.season == season && ctx.reg == reg && ctx.lineup == l
    ensures CommitPlayers(st.playerCache, reg, l, season, ctx.rounds, CommitSlots())
            == Ok(CommitAll(st.playerCache, MatchIds(reg, l, season), season))
    ensures MatchOutcome(st, reg, season, home, away, date, l, evs) == Close(st, u, ctx)
  {
    var u0 := OpenMatch(st.teamCache, season, home, away, date);
    var (u1, rounds) := InitPlayers(u0, reg, st.playerCache, l, season, date, ProductSlots(), map[]).value;
    ctx := MatchCtx(reg, season, home, away, NextRound(st.teamCache, home, season),
                    NextRound(st.teamCache, away, season), l, rounds);
    u := PlayMatch(u1, st.global, ctx, evs).value;
    PlayedTables(st, reg, season, home, away, date, l, evs, u1, ctx);
  }

  /** The per-match tables after the roster and the play, for a lineup whose roster went
      through. */
  lemma PlayedTables(st: EngineState, reg: Registry, season: int, home: string, away: string,
                     date: string, l: Lineup, evs: seq<Event>, u1: Tables, ctx: MatchCtx)
    requires InitPlayers(OpenMatch(st.teamCache, season, home, away, date), reg, st.playerCache, l,
                         season, date, ProductSlots(), map[]) == Ok((u1, ctx.rounds))
    requires ctx.home == home && ctx.away == away && ctx.season == season && ctx.reg == reg && ctx.lineup == l
    requires PlayMatch(u1, st.global, ctx, evs).Ok?
    ensures var u := PlayMatch(u1, st.global, ctx, evs).value;
            && u.Valid()
            && KeysOf(u.teams) == NewKeys(st.teamCache, {home, away}, season)
            && PlayerKeys(u) == NewKeys(st.playerCache, MatchIds(reg, l, season), season)
    ensures CommitPlayers(st.playerCache, reg, l, season, ctx.rounds, CommitSlots())
            == Ok(CommitAll(st.playerCache, MatchIds(reg, l, season), season))
  {
    var u0 := OpenMatch(st.teamCache, season, home, away, date);
    RosterLedger(u0, reg, st.playerCache, l, season, date);
    var u := PlayMatch(u1, st.global, ctx, evs).value;
    PlayMatchKeepsShape(u1, st.global, ctx, evs);
    ReshapedKeys(u1, u);
    assert PlayerKeys(u0) == {};
  }

  /** Appending a match's records and committing their rounds keeps the ledger. */
  lemma CloseKeepsLedger(st: EngineState, u: Tables, teamIds: set<string>, playerIds: set<string>, season: int)
    requires Ledgered(st) && u.Valid()
    requires KeysOf(u.teams) == NewKeys(st.teamCache, teamIds, season)
    requires PlayerKeys(u) == NewKeys(st.playerCache, playerIds, season)
    ensures Ledgered(EngineState(Concat(st.global, u), CommitAll(st.teamCache, teamIds, season),
                                 CommitAll(st.playerCache, playerIds, season)))
    ensures KeysOf(Concat(st.global, u).teams) == KeysOf(st.global.teams) + NewKeys(st.teamCache, teamIds, season)
    ensures PlayerKeys(Concat(st.global, u)) == PlayerKeys(st.global) + NewKeys(st.playerCache, playerIds, season)
  {
    var g := Concat(st.global, u);
    KeysOfConcat(st.global.teams, u.teams);
    KeysOfConcat(st.global.players, u.players);
    KeysOfConcat(st.global.keepers, u.keepers);
    assert PlayerKeys(g) == PlayerKeys(st.global) + PlayerKeys(u);
    CommitKeepsContiguous(st.teamCache, KeysOf(st.global.teams), teamIds, season);
    CommitKeepsContiguous(st.playerCache, PlayerKeys(st.global), playerIds, season);
    assert g.Valid() by {
      forall t ensures AllWellFormed(t, g.Of(t)) {
        assert AllWellFormed(t, st.global.Of(t)) && AllWellFormed(t, u.Of(t));
      }
    }
  }

  /** The ledger across a match: team_stats keeps every record well formed and both caches
      contiguous, adding exactly the records of the rounds it commits. */
  lemma MatchOutcomeKeepsLedger(st: EngineState, reg: Registry, season: int, home: string, away: string,
                                date: string, l: Lineup, evs: seq<Event>)
    requires Ledgered(st) && MatchOutcome(st, reg, season, home, away, date, l, evs).Ok?
    ensures var st' := MatchOutcome(st, reg, season, home, away, date, l, evs).value;
            && Ledgered(st')
            && st'.teamCache == CommitAll(st.teamCache, {home, away}, season)
            && st'.playerCache == CommitAll(st.playerCache, MatchIds(reg, l, season), season)
            && KeysOf(st'.global.teams) == KeysOf(st.global.teams) + NewKeys(st.teamCache, {home, away}, season)
            && PlayerKeys(st'.global)
               == PlayerKeys(st.global) + NewKeys(st.playerCache, MatchIds(reg, l, season), season)
  {
    var u := MatchOutcomeParts(st, reg, season, home, away, date, l, evs);
    CloseKeepsLedger(st, u, {home, away}, MatchIds(reg, l, season), season);
  }

  /** The module-level state of the build, changed in place by team_stats. */
  class StatsEngine {
    var teams: seq<Row>
    var players: seq<Row>
    var keepers: seq<Row>
    var teamCache: RoundCache
    var playerCache: RoundCache

    function State(): EngineState
      reads this
    {
      EngineState(Tables(teams, players, keepers), teamCache, playerCache)
    }

    ghost predicate Valid()
      reads this
    {
      Ledgered(State())
    }

    /** Empty tables and empty caches. */
    constructor ()
      ensures Valid() && State() == EngineState(EmptyTables(), map[], map[])
    {
      teams, players, keepers := [], [], [];
      teamCache, playerCache := map[], map[];
    }

    /** team_stats. On an exception the globals are as before: every error is raised
        before the concatenation. */
    method TeamStats(reg: Registry, season: int, home: string, away: string, date: string,
                     l: Lineup, evs: seq<Event>) returns (err: Option<Error>)
      modifies this
      requires Valid()
      ensures Valid()
      ensures var r := MatchOutcome(old(State()), reg, season, home, away, date, l, evs);
              && (r.Ok? ==> err == None && State() == r.value)
              && (r.Err? ==> err == Some(r.error) && State() == old(State()))
    {
      var m := new MatchTables();
      var hm := NextRound(teamCache, home, season);
      m.InitRow(TeamTable, Key(home, season, hm), home, date, "");
      var aw := NextRound(teamCache, away, season);
      m.InitRow(TeamTable, Key(away, season, aw), away, date, "");
      assert m.Snapshot() == OpenMatch(teamCache, season, home, away, date);
      var u0 := m.Snapshot();

      var rounds: Rounds;
      rounds, err := InitPlayersIn(m, reg, playerCache, l, season, date);
      if err.Some? {
        return;
      }
      var ctx := MatchCtx(reg, season, home, away, hm, aw, l, rounds);
      var u1 := m.Snapshot();

      err := PlayIn(m, Tables(teams, players, keepers), ctx, evs);
      if err.Some? {
        return;
      }
      var u2 := m.Snapshot();

      ghost var st := State();
      assert InitPlayers(u0, reg, st.playerCache, l, season, date, ProductSlots(), map[]) == Ok((u1, rounds));
      assert PlayMatch(u1, st.global, ctx, evs) == Ok(u2);
      RosterLedger(u0, reg, st.playerCache, l, season, date);
      assert MatchOutcome(st, reg, season, home, away, date, l, evs) == Close(st, u2, ctx);
      MatchOutcomeKeepsLedger(st, reg, season, home, away, date, l, evs);
      CloseIn(m.teams, m.players, m.keepers, ctx);
    }

    /** The end of postprocess and team_stats, in place: concatenation and both commits. */
    method CloseIn(mTeams: seq<Row>, mPlayers: seq<Row>, mKeepers: seq<Row>, ctx: MatchCtx)
      modifies this
      requires Close(State(), Tables(mTeams, mPlayers, mKeepers), ctx).Ok?
      requires ctx.hmRound == NextRound(teamCache, ctx.home, ctx.season)
      requires ctx.awRound == NextRound(teamCache, ctx.away, ctx.season)
      ensures State() == old(Close(State(), Tables(mTeams, mPlayers, mKeepers), ctx)).value
    {
      teams, players, keepers := teams + mTeams, players + mPlayers, keepers + mKeepers;
      CommitPlayersIn(ctx.reg, ctx.lineup, ctx.season, ctx.rounds);
      teamCache := teamCache[(ctx.home, ctx.season) := ctx.hmRound];
      teamCache := teamCache[(ctx.away, ctx.season) := ctx.awRound];
    }

    /** postprocess's loop over hp1..hp11, hs1..hs12, ap1..ap11, as1..as12. Every lookup
        succeeds: init_players_in_match resolved the same columns. */
    method CommitPlayersIn(reg: Registry, l: Lineup, season: int, rounds: Rounds)
      modifies this
      requires CommitPlayers(playerCache, reg, l, season, rounds, CommitSlots()).Ok?
      ensures playerCache == old(CommitPlayers(playerCache, reg, l, season, rounds, CommitSlots())).value
      ensures teams == old(teams) && players == old(players) && keepers == old(keepers)
      ensures teamCache == old(teamCache)
    {
      var slots := CommitSlots();
      var i := 0;
      while i < |slots|
        invariant 0 <= i <= |slots|
        invariant teams == old(teams) && players == old(players) && keepers == old(keepers)
        invariant teamCache == old(teamCache)
        invariant CommitPlayers(old(playerCache), reg, l, season, rounds, slots)
                  == CommitPlayers(playerCache, reg, l, season, rounds, slots[i..])
      {
        assert slots[i..][1..] == slots[i + 1..];
        var s := slots[i];
        if s in l.names {
          var key := SlotKey(l, s, season);
          playerCache := playerCache[(reg.nameToUrl[key], season) := rounds[key]];
        }
        i := i + 1;
      }
    }
  }

  /** games_played, the event loop and the first two steps of postprocess, in place. */
  method PlayIn(m: MatchTables, g: Tables, ctx: MatchCtx, evs: seq<Event>) returns (err: Option<Error>)
    modifies m
    requires m.Valid()
    ensures m.Valid()
    ensures var r := PlayMatch(old(m.Snapshot()), g, ctx, evs);
            && (r.Ok? ==> err == None && m.Snapshot() == r.value)
            && (r.Err? ==> err == Some(r.error))
  {
    err := m.Append(TeamTable, Key(ctx.home, ctx.season, ctx.hmRound), GamesPlayed, Some(Home), 1, false);
    if err.Some? {
      return;
    }
    err := m.Append(TeamTable, Key(ctx.away, ctx.season, ctx.awRound), GamesPlayed, Some(Away), 1, false);
    if err.Some? {
      return;
    }
    err := RunEventsIn(m, ctx, evs);
    if err.Some? {
      return;
    }
    err := UpdateTimePlayedIn(m, ctx.reg, ctx.lineup, ctx.season, ctx.rounds);
    if err.Some? {
      return;
    }
    err := UpdateInjuriesIn(m, g, ctx.reg, ctx.lineup, ctx.season, ctx.rounds);
  }
}
