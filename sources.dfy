/** Where transform takes a match's own statistics from before it adds them to the
    histories: the averaging fallback fill_info with good_or_bad (database_build.py:738-810)
    for matches without detailed statistics, the direct lookup get_info_from_dbs (965-983)
    otherwise, and the label of get_result (985-992) with the results transform derives from
    it (1016-1022). The `teams`, `players` and `goalkeepers` tables are the ones the
    statistics engine wrote. */
module Sources {
  import opened Common
  import opened Schema
  import opened Feed
  import opened Records
  import opened Vectors
  import opened History

  /** The module-level inputs the builder reads: ginf, lineups, the three record tables and
      the lookup maps. */
  datatype World = World(ginf: seq<MatchInfo>, lineups: seq<Lineup>, tables: Tables, reg: Registry)

  /** A row's counters in its table's column order, as numpy reads them. */
  function RowVec(t: TableId, r: Row): (v: Vec)
    ensures |v| == Width(t)
    ensures forall i :: 0 <= i < |v| ==> v[i] == Cell(r, Columns(t)[i]) as real
  {
    seq(Width(t), i requires 0 <= i < Width(t) => Cell(r, Columns(t)[i]) as real)
  }

  /** `.values.reshape(-1)` of a selection: the rows' counters one row after the other. */
  function RowsVec(t: TableId, rows: seq<Row>): (v: Vec)
    ensures |v| == |rows| * Width(t)
    decreases |rows|
  {
    if rows == [] then [] else RowVec(t, rows[0]) + RowsVec(t, rows[1..])
  }

  /** A selection reads as one vector of the table's width exactly when it holds one row;
      no row gives an empty vector. */
  lemma RowsVecWidth(t: TableId, rows: seq<Row>)
    ensures |RowsVec(t, rows)| == Width(t) <==> |rows| == 1
    ensures |RowsVec(t, rows)| == 0 <==> rows == []
    ensures |rows| == 1 ==> RowsVec(t, rows) == RowVec(t, rows[0])
  {
    var n, w := |rows|, Width(t);
    if n >= 2 {
      assert n * w == w + (n - 1) * w;
      assert (n - 1) * w >= w;
    }
    if |rows| == 1 {
      assert rows[1..] == [];
    }
  }

  /** The lineup names of several lineup rows of one side, NaN dropped, row after row. */
  function LineupNames(rows: seq<Lineup>, side: Side): (ns: seq<string>)
    decreases |rows|
  {
    if rows == [] then [] else Present(SideNames(rows[0], side)) + LineupNames(rows[1..], side)
  }

  // ---------------------------------------------------------------------------------------
  // good_or_bad

  /** `max_num`: the Bundesliga ("D1") has 18 teams, every other league 20. */
  function LeagueSize(league: string): (n: nat)
    ensures n == 18 || n == 20
    ensures n == 18 <==> league == "D1"
  {
    if league == "D1" then 18 else 20
  }

  /** `pos / max_num < 0.5`: the team finished in the upper half of its table. A
      (team, season) without a table position raises KeyError. */
  function GoodOrBad(reg: Registry, team: string, league: string, season: int): (r: Result<bool>)
    ensures r.Err? <==> (team, season) !in reg.tablePos
    ensures r.Err? ==> r.error == KeyError
    ensures r.Ok? ==> (r.value <==> 2 * reg.tablePos[(team, season)] < LeagueSize(league))
  {
    if (team, season) !in reg.tablePos then Err(KeyError)
    else
      var pos := reg.tablePos[(team, season)];
      HalfOf(pos, LeagueSize(league));
      Ok((pos as real) / (LeagueSize(league) as real) < 0.5)
  }

  lemma HalfOf(pos: int, n: nat)
    requires n == 18 || n == 20
    ensures (pos as real) / (n as real) < 0.5 <==> 2 * pos < n
  {
    if n == 18 {
      assert (pos as real) / 18.0 < 0.5 <==> (pos as real) < 9.0;
    } else {
      assert (pos as real) / 20.0 < 0.5 <==> (pos as real) < 10.0;
    }
  }

  // ---------------------------------------------------------------------------------------
  // fill_info

  function SideTeam(m: MatchInfo, side: Side): string {
    if side == Home then m.home else m.away
  }

  /** A match kept by `lineups_to_extract`: the team's lineup rows of that date and the
      date. */
  datatype Game = Game(rows: seq<Lineup>, date: string)

  /** The state of the match loop: `cumulative_team_stat`, `lineups_to_extract`, `s`. */
  datatype Scan = Scan(sum: Vec, games: seq<Game>, s: nat)

  /** What the match loop reads besides the match itself. */
  datatype FillCtx = FillCtx(reg: Registry, league: string, gobOp: bool, teamDb: seq<Row>,
                             lineupDb: seq<Lineup>, side: Side, season: int)

  /** One match of the loop: a match whose opponent is on the same half of the table as
      today's opponent adds the team's row of that date (one row of the right width, or
      numpy refuses the addition) and is remembered. */
  function ScanStep(c: FillCtx, sc: Scan, m: MatchInfo): (r: Result<Scan>)
    requires |sc.sum| == Width(TeamTable)
    ensures r.Ok? ==> |r.value.sum| == Width(TeamTable)
  {
    var g :- GoodOrBad(c.reg, SideTeam(m, Opposite(c.side)), c.league, c.season);
    if g != c.gobOp then Ok(sc)
    else
      var v := RowsVec(TeamTable, Filter(c.teamDb, (r: Row) => r.date == m.date));
      if |v| != Width(TeamTable) then Err(ShapeMismatch)
      else
        var game := Game(Filter(c.lineupDb, (l: Lineup) => l.date == m.date), m.date);
        Ok(Scan(Plus(sc.sum, v), sc.games + [game], sc.s + 1))
  }

  /** The match loop over the first `i` matches. */
  function ScanUpTo(c: FillCtx, ms: seq<MatchInfo>, i: nat): (r: Result<Scan>)
    requires i <= |ms|
    ensures r.Ok? ==> |r.value.sum| == Width(TeamTable) && r.value.s == |r.value.games| <= i
    decreases i
  {
    if i == 0 then Ok(Scan(Zeros(Width(TeamTable)), [], 0))
    else
      var sc :- ScanUpTo(c, ms, i - 1);
      ScanStep(c, sc, ms[i - 1])
  }

  /** A failed match ends the loop: the error is the loop's. */
  lemma {:induction false} ScanStops(c: FillCtx, ms: seq<MatchInfo>, i: nat, k: nat)
    requires i <= k <= |ms| && ScanUpTo(c, ms, i).Err?
    ensures ScanUpTo(c, ms, k) == ScanUpTo(c, ms, i)
    decreases k
  {
    if k > i {
      ScanStops(c, ms, i, k - 1);
    }
  }

  /** `pl in game.values.reshape(-1)`: some cell of the game's lineup rows holds the name. */
  predicate InGame(pl: string, rows: seq<Lineup>) {
    exists l :: l in rows && (pl in l.names.Values || pl == l.homeTeam || pl == l.awayTeam || pl == l.date)
  }

  /** The number of the first `j` games that name the player. */
  function GamesWith(games: seq<Game>, pl: string, j: nat): nat
    requires j <= |games|
    decreases j
  {
    if j == 0 then 0 else GamesWith(games, pl, j - 1) + (if InGame(pl, games[j - 1].rows) then 1 else 0)
  }

  /** The averaging loop of one player over the first `j` games: the sum and `n_games`.
      `cur` is the player's selection at the date of the match being built, which is what
      the loop reads for every game. */
  function AvgUpTo(games: seq<Game>, pl: string, cur: seq<Row>, t: TableId, j: nat): (r: Result<(Vec, nat)>)
    requires j <= |games|
    ensures r.Ok? ==> |r.value.0| == Width(t)
    decreases j
  {
    if j == 0 then Ok((Zeros(Width(t)), 0))
    else
      var p :- AvgUpTo(games, pl, cur, t, j - 1);
      if !InGame(pl, games[j - 1].rows) then Ok(p)
      else if |cur| >= 2 then Err(AssertionFailed)
      else if |cur| == 1 && Cell(cur[0], TimePlayed) > 0 then Ok((Plus(p.0, RowVec(t, cur[0])), p.1 + 1))
      else Ok(p)
  }

  lemma {:induction false} AvgStops(games: seq<Game>, pl: string, cur: seq<Row>, t: TableId, i: nat, k: nat)
    requires i <= k <= |games| && AvgUpTo(games, pl, cur, t, i).Err?
    ensures AvgUpTo(games, pl, cur, t, k) == AvgUpTo(games, pl, cur, t, i)
    decreases k
  {
    if k > i {
      AvgStops(games, pl, cur, t, i, k - 1);
    }
  }

  /** The number of copies of the current row the loop adds: one per game naming the
      player when that row exists and has minutes, none otherwise. */
  function Copies(games: seq<Game>, pl: string, cur: seq<Row>, j: nat): nat
    requires j <= |games|
  {
    if |cur| == 1 && Cell(cur[0], TimePlayed) > 0 then GamesWith(games, pl, j) else 0
  }

  /** `m` copies of a vector, zero copies being the zero vector. */
  function Copied(row: Vec, m: nat): (v: Vec)
    ensures |v| == |row|
  {
    if m > 0 then Scale(row, m as real) else Zeros(|row|)
  }

  lemma CopiedStep(row: Vec, m: nat)
    ensures Plus(Copied(row, m), row) == Copied(row, m + 1)
  {
    var a := Plus(Copied(row, m), row);
    var r := m as real;
    assert (m + 1) as real == r + 1.0;
    forall i | 0 <= i < |row|
      ensures a[i] == row[i] * (r + 1.0)
    {
      var x := row[i];
      if m > 0 {
        assert a[i] == x * r + x;
      } else {
        assert a[i] == 0.0 + x;
      }
      assert x * (r + 1.0) == x * r + x;
    }
    assert a == Scale(row, r + 1.0);
  }

  /** The loop fails exactly when the player has two current rows and a game names him. */
  lemma {:induction false} AvgFails(games: seq<Game>, pl: string, cur: seq<Row>, t: TableId, j: nat)
    requires j <= |games|
    ensures AvgUpTo(games, pl, cur, t, j).Err? <==> |cur| >= 2 && GamesWith(games, pl, j) > 0
    decreases j
  {
    if j > 0 {
      AvgFails(games, pl, cur, t, j - 1);
    }
  }

  /** The row is counted in every game that names the player, so the sum is that many
      copies of the current row. */
  lemma {:induction false} AvgCopies(games: seq<Game>, pl: string, cur: seq<Row>, t: TableId, j: nat)
    requires j <= |games|
    ensures AvgUpTo(games, pl, cur, t, j).Ok? ==>
              AvgUpTo(games, pl, cur, t, j).value
              == (Copied(if |cur| == 1 then RowVec(t, cur[0]) else Zeros(Width(t)), Copies(games, pl, cur, j)),
                  Copies(games, pl, cur, j))
    decreases j
  {
    if j > 0 && AvgUpTo(games, pl, cur, t, j).Ok? {
      AvgCopies(games, pl, cur, t, j - 1);
      AvgGame(games, pl, cur, t, j);
      if InGame(pl, games[j - 1].rows) && |cur| == 1 && Cell(cur[0], TimePlayed) > 0 {
        CopiedStep(RowVec(t, cur[0]), Copies(games, pl, cur, j - 1));
      }
    }
  }

  /** One game of the averaging loop: the sum gains the current row exactly when the game
      names the player and the row has minutes. */
  lemma AvgGame(games: seq<Game>, pl: string, cur: seq<Row>, t: TableId, j: nat)
    requires 0 < j <= |games| && AvgUpTo(games, pl, cur, t, j).Ok?
    ensures var counted := InGame(pl, games[j - 1].rows) && |cur| == 1 && Cell(cur[0], TimePlayed) > 0;
            var prev := AvgUpTo(games, pl, cur, t, j - 1);
            && prev.Ok?
            && AvgUpTo(games, pl, cur, t, j).value
               == (if counted then (Plus(prev.value.0, RowVec(t, cur[0])), prev.value.1 + 1) else prev.value)
            && Copies(games, pl, cur, j) == Copies(games, pl, cur, j - 1) + (if counted then 1 else 0)
  {
  }

  lemma OverCopies(row: Vec, m: nat)
    requires m > 0
    ensures Over(Copied(row, m), m as real) == row
  {
    var a := Over(Copied(row, m), m as real);
    forall i | 0 <= i < |row|
      ensures a[i] == row[i]
    {
      DivCancel(row[i], m as real);
    }
  }

  /** The average of one player (`cpstats[-1]`). */
  function FillPlayer(w: World, team: string, season: int, date: string, games: seq<Game>,
                      pl: string): (r: Result<Vec>)
  {
    if (pl, season, team) !in w.reg.nameToUrl then Err(KeyError)
    else
      var url := w.reg.nameToUrl[(pl, season, team)];
      if url !in w.reg.playerPos then Err(KeyError)
      else
        var t := TableFor(w.reg.playerPos[url]);
        PlayerAverage(games, pl, CurrentRows(w, t, team, season, date, pl), t)
  }

  /** The sum divided by `n_games` when positive. */
  function PlayerAverage(games: seq<Game>, pl: string, cur: seq<Row>, t: TableId): (r: Result<Vec>)
  {
    var p :- AvgUpTo(games, pl, cur, t, |games|);
    Ok(if p.1 > 0 then Over(p.0, p.1 as real) else p.0)
  }

  /** The inner loop of fill_info over the kept games, proved to compute PlayerAverage. */
  method AverageLoop(games: seq<Game>, pl: string, cur: seq<Row>, t: TableId) returns (r: Result<Vec>)
    ensures r == PlayerAverage(games, pl, cur, t)
  {
    var acc, n := Zeros(Width(t)), 0;
    var g := 0;
    while g < |games|
      invariant g <= |games|
      invariant AvgUpTo(games, pl, cur, t, g) == Ok((acc, n))
    {
      AvgStep(games, pl, cur, t, g, acc, n);
      if InGame(pl, games[g].rows) {
        if |cur| >= 2 {
          AvgStops(games, pl, cur, t, g + 1, |games|);
          return Err(AssertionFailed);
        }
        if |cur| == 1 && Cell(cur[0], TimePlayed) > 0 {
          acc, n := Plus(acc, RowVec(t, cur[0])), n + 1;
        }
      }
      g := g + 1;
    }
    if n > 0 {
      acc := Over(acc, n as real);
    }
    return Ok(acc);
  }

  lemma AvgStep(games: seq<Game>, pl: string, cur: seq<Row>, t: TableId, g: nat, acc: Vec, n: nat)
    requires g < |games| && AvgUpTo(games, pl, cur, t, g) == Ok((acc, n))
    ensures AvgUpTo(games, pl, cur, t, g + 1)
            == if !InGame(pl, games[g].rows) then Ok((acc, n))
               else if |cur| >= 2 then Err(AssertionFailed)
               else if |cur| == 1 && Cell(cur[0], TimePlayed) > 0 then Ok((Plus(acc, RowVec(t, cur[0])), n + 1))
               else Ok((acc, n))
  {
  }

  /** `player_db.loc[player_db["date"] == date]`: the player's rows of the season for this
      team, at the date of the match being built. */
  function CurrentRows(w: World, t: TableId, team: string, season: int, date: string, pl: string): seq<Row> {
    var playerDb := Filter(w.tables.Of(t), (r: Row) => r.name == pl && r.team == team && r.key.season == season);
    Filter(playerDb, (r: Row) => r.date == date)
  }

  /** The player loop of fill_info over the first `j` lineup names. */
  function FillPlayersUpTo(w: World, team: string, season: int, date: string, games: seq<Game>,
                           names: seq<string>, j: nat): (r: Result<seq<Vec>>)
    requires j <= |names|
    ensures r.Ok? ==> |r.value| == j
    decreases j
  {
    if j == 0 then Ok([])
    else
      var ps :- FillPlayersUpTo(w, team, season, date, games, names, j - 1);
      var v :- FillPlayer(w, team, season, date, games, names[j - 1]);
      Ok(ps + [v])
  }

  lemma {:induction false} FillPlayersStop(w: World, team: string, season: int, date: string,
                                           games: seq<Game>, names: seq<string>, i: nat, k: nat)
    requires i <= k <= |names| && FillPlayersUpTo(w, team, season, date, games, names, i).Err?
    ensures FillPlayersUpTo(w, team, season, date, games, names, k)
            == FillPlayersUpTo(w, team, season, date, games, names, i)
    decreases k
  {
    if k > i {
      FillPlayersStop(w, team, season, date, games, names, i, k - 1);
    }
  }

  /** `cumulative_team_stat /= s`: a mean, or 0/0 in every entry when no match was kept. */
  function TeamMean(sum: Vec, s: nat): (m: NVec)
    ensures |m| == |sum|
  {
    if s == 0 then NaNs(|sum|) else Lift(Over(sum, s as real))
  }

  /** The matches fill_info averages: every match of the team on that side in the season
      that has detailed statistics, whatever its date. */
  function FillMatches(w: World, team: string, side: Side, season: int): seq<MatchInfo> {
    Filter(w.ginf, (m: MatchInfo) => SideTeam(m, side) == team && m.season == season && m.advStats)
  }

  /** The context of the match loop, once the league and today's opponent are known. */
  function FillContext(w: World, team: string, side: Side, season: int, league: string, gobOp: bool): FillCtx {
    var teamDb := Filter(w.tables.teams, (r: Row) => r.key.ident == team && r.key.season == season);
    var lineupDb := Filter(w.lineups, (l: Lineup) => TeamOf(l, side) == team && l.season == season);
    FillCtx(w.reg, league, gobOp, teamDb, lineupDb, side, season)
  }

  /** The lineup of the team at the match being built. */
  function TodayNames(w: World, team: string, side: Side, date: string): seq<string> {
    LineupNames(Filter(w.lineups, (l: Lineup) => TeamOf(l, side) == team && l.date == date), side)
  }

  /** fill_info: the team's statistics averaged over the season's matches against
      opponents from the same half of the table as today's, and each player's statistics
      averaged over those of the matches that name him. */
  function FillInfo(w: World, team: string, opTeam: string, side: Side, season: int,
                    date: string): (r: Result<(NVec, seq<Vec>)>)
    ensures r.Ok? ==> |r.value.0| == Width(TeamTable) && |r.value.1| == |TodayNames(w, team, side, date)|
  {
    var matches := FillMatches(w, team, side, season);
    if matches == [] then Err(IndexError)
    else
      var league := matches[0].league;
      var gobTeam :- GoodOrBad(w.reg, team, league, season);
      var gobOp :- GoodOrBad(w.reg, opTeam, league, season);
      var c := FillContext(w, team, side, season, league, gobOp);
      var sc :- ScanUpTo(c, matches, |matches|);
      var names := TodayNames(w, team, side, date);
      var ps :- FillPlayersUpTo(w, team, season, date, sc.games, names, |names|);
      Ok((TeamMean(sc.sum, sc.s), ps))
  }

  /** When no match of the season is kept the division is 0/0 and the whole team vector is
      NaN. */
  lemma FillInfoNoGames(w: World, team: string, opTeam: string, side: Side, season: int, date: string)
    requires FillInfo(w, team, opTeam, side, season, date).Ok?
    requires var ms := FillMatches(w, team, side, season);
             var ctx := FillContext(w, team, side, season, ms[0].league,
                                    GoodOrBad(w.reg, opTeam, ms[0].league, season).value);
             ScanUpTo(ctx, ms, |ms|).value.s == 0
    ensures FillInfo(w, team, opTeam, side, season, date).value.0 == NaNs(Width(TeamTable))
  {
  }

  /** The test that keeps a match in fill_info's loop: the opponent of that match is on the
      same half of the table as today's opponent. No date enters it. */
  predicate SameHalf(c: FillCtx, m: MatchInfo) {
    GoodOrBad(c.reg, SideTeam(m, Opposite(c.side)), c.league, c.season) == Ok(c.gobOp)
  }

  /** The matches among the first `i` that pass the test, in order. */
  function Kept(c: FillCtx, ms: seq<MatchInfo>, i: nat): seq<MatchInfo>
    requires i <= |ms|
    decreases i
  {
    if i == 0 then [] else Kept(c, ms, i - 1) + (if SameHalf(c, ms[i - 1]) then [ms[i - 1]] else [])
  }

  /** The team's row of a date, read as one vector (`team_db.loc[date == new_date]`). */
  function DayVec(c: FillCtx, date: string): Vec {
    RowsVec(TeamTable, Filter(c.teamDb, (r: Row) => r.date == date))
  }

  /** Column `col` of the team's rows, summed over the matches `ks`. */
  function KeptColumn(c: FillCtx, ks: seq<MatchInfo>, col: nat): real
    decreases |ks|
  {
    if ks == [] then 0.0
    else
      var v := DayVec(c, ks[|ks| - 1].date);
      KeptColumn(c, ks[..|ks| - 1], col) + (if col < |v| then v[col] else 0.0)
  }

  /** The match loop keeps exactly the matches that pass the same-half test, whatever their
      date, remembers them in order, counts them in `s`, and sums the team's rows of their
      dates column by column. */
  lemma {:induction false} ScanKept(c: FillCtx, ms: seq<MatchInfo>, i: nat)
    requires i <= |ms| && ScanUpTo(c, ms, i).Ok?
    ensures var sc, ks := ScanUpTo(c, ms, i).value, Kept(c, ms, i);
            && (forall m :: m in ks <==> m in ms[..i] && SameHalf(c, m))
            && sc.s == |ks| == |sc.games|
            && (forall j :: 0 <= j < |ks| ==> sc.games[j].date == ks[j].date)
            && (forall col :: 0 <= col < Width(TeamTable) ==> sc.sum[col] == KeptColumn(c, ks, col))
    decreases i
  {
    if i == 0 {
      return;
    }
    var sc0 := ScanUpTo(c, ms, i - 1).value;
    ScanKept(c, ms, i - 1);
    var m := ms[i - 1];
    var ks0, ks := Kept(c, ms, i - 1), Kept(c, ms, i);
    assert ms[..i] == ms[..i - 1] + [m];
    if SameHalf(c, m) {
      assert ks == ks0 + [m] && ks[..|ks| - 1] == ks0;
      KeptStep(c, ms, i, sc0, ks0);
    } else {
      assert ks == ks0;
    }
  }

  /** The step of ScanKept for a kept match. */
  lemma KeptStep(c: FillCtx, ms: seq<MatchInfo>, i: nat, sc0: Scan, ks0: seq<MatchInfo>)
    requires 0 < i <= |ms| && ScanUpTo(c, ms, i).Ok? && SameHalf(c, ms[i - 1])
    requires ScanUpTo(c, ms, i - 1) == Ok(sc0) && ks0 == Kept(c, ms, i - 1)
    requires sc0.s == |ks0| == |sc0.games|
    requires forall j :: 0 <= j < |ks0| ==> sc0.games[j].date == ks0[j].date
    requires forall col :: 0 <= col < Width(TeamTable) ==> sc0.sum[col] == KeptColumn(c, ks0, col)
    ensures var sc, ks := ScanUpTo(c, ms, i).value, ks0 + [ms[i - 1]];
            && sc.s == |ks| == |sc.games|
            && (forall j :: 0 <= j < |ks| ==> sc.games[j].date == ks[j].date)
            && (forall col :: 0 <= col < Width(TeamTable) ==> sc.sum[col] == KeptColumn(c, ks, col))
  {
    var m := ms[i - 1];
    var v := DayVec(c, m.date);
    var sc := ScanUpTo(c, ms, i).value;
    assert ScanUpTo(c, ms, i) == ScanStep(c, sc0, m);
    assert |v| == Width(TeamTable) && sc.sum == Plus(sc0.sum, v) && sc.s == sc0.s + 1;
    assert sc.games == sc0.games + [Game(Filter(c.lineupDb, (l: Lineup) => l.date == m.date), m.date)];
    var ks := ks0 + [m];
    assert ks[..|ks| - 1] == ks0;
    forall col | 0 <= col < Width(TeamTable)
      ensures sc.sum[col] == KeptColumn(c, ks, col)
    {
      assert KeptColumn(c, ks, col) == KeptColumn(c, ks0, col) + v[col];
    }
  }

  /** fill_info's team vector: the loop runs over every match of the team on that side in
      the season with detailed statistics (before or after today's), keeps those whose
      opponent is on today's opponent's half of the table, and the result is the
      column-wise mean of the team's rows of the kept matches, or all NaN when none is kept. */
  lemma FillInfoTeamMean(w: World, team: string, opTeam: string, side: Side, season: int, date: string)
    requires FillInfo(w, team, opTeam, side, season, date).Ok?
    ensures var ms := FillMatches(w, team, side, season);
            && ms != []
            && GoodOrBad(w.reg, opTeam, ms[0].league, season).Ok?
            && var c := FillContext(w, team, side, season, ms[0].league,
                                    GoodOrBad(w.reg, opTeam, ms[0].league, season).value);
               var ks := Kept(c, ms, |ms|);
               var t := FillInfo(w, team, opTeam, side, season, date).value.0;
               && (forall m :: m in ks <==> m in w.ginf && SideTeam(m, side) == team && m.season == season
                                             && m.advStats && SameHalf(c, m))
               && (ks == [] ==> t == NaNs(Width(TeamTable)))
               && (ks != [] ==> forall col :: 0 <= col < Width(TeamTable) ==>
                                  t[col] == Fin(KeptColumn(c, ks, col) / (|ks| as real)))
  {
    var c, sc := FillInfoScan(w, team, opTeam, side, season, date);
    var ms := FillMatches(w, team, side, season);
    TeamMeanOfKept(c, ms, sc);
    FilterMembers(w.ginf, (m: MatchInfo) => SideTeam(m, side) == team && m.season == season && m.advStats);
  }

  /** fill_info's team vector is TeamMean of its match loop's result. */
  lemma FillInfoScan(w: World, team: string, opTeam: string, side: Side, season: int, date: string)
    returns (c: FillCtx, sc: Scan)
    requires FillInfo(w, team, opTeam, side, season, date).Ok?
    ensures var ms := FillMatches(w, team, side, season);
            && ms != []
            && GoodOrBad(w.reg, opTeam, ms[0].league, season).Ok?
            && c == FillContext(w, team, side, season, ms[0].league,
                                GoodOrBad(w.reg, opTeam, ms[0].league, season).value)
            && ScanUpTo(c, ms, |ms|) == Ok(sc)
            && FillInfo(w, team, opTeam, side, season, date).value.0 == TeamMean(sc.sum, sc.s)
  {
    var ms := FillMatches(w, team, side, season);
    c := FillContext(w, team, side, season, ms[0].league, GoodOrBad(w.reg, opTeam, ms[0].league, season).value);
    sc := ScanUpTo(c, ms, |ms|).value;
  }

  /** The mean of a finished match loop, in terms of the kept matches. */
  lemma TeamMeanOfKept(c: FillCtx, ms: seq<MatchInfo>, sc: Scan)
    requires ScanUpTo(c, ms, |ms|) == Ok(sc)
    ensures var ks := Kept(c, ms, |ms|);
            && (forall m :: m in ks <==> m in ms && SameHalf(c, m))
            && (ks == [] ==> TeamMean(sc.sum, sc.s) == NaNs(Width(TeamTable)))
            && (ks != [] ==> forall col :: 0 <= col < Width(TeamTable) ==>
                               TeamMean(sc.sum, sc.s)[col] == Fin(KeptColumn(c, ks, col) / (|ks| as real)))
  {
    ScanKept(c, ms, |ms|);
    assert ms[..|ms|] == ms;
  }

  /** A player's average is not an average over the kept matches: every kept match that
      names him reads the same row, the one at today's date, so the result is that row
      (when it exists with minutes and some kept match names him) or zeros. */
  lemma FillPlayerIsTodaysRow(w: World, team: string, season: int, date: string, games: seq<Game>,
                              pl: string, t: TableId)
    requires FillPlayer(w, team, season, date, games, pl).Ok?
    requires t == TableFor(w.reg.playerPos[w.reg.nameToUrl[(pl, season, team)]])
    ensures var cur := CurrentRows(w, t, team, season, date, pl);
            FillPlayer(w, team, season, date, games, pl).value
            == if |cur| == 1 && Cell(cur[0], TimePlayed) > 0 && GamesWith(games, pl, |games|) > 0
               then RowVec(t, cur[0]) else Zeros(Width(t))
  {
    var cur := CurrentRows(w, t, team, season, date, pl);
    AvgCopies(games, pl, cur, t, |games|);
    var m := Copies(games, pl, cur, |games|);
    if m > 0 {
      OverCopies(RowVec(t, cur[0]), m);
    }
  }

  /** fill_info's loops, proved to compute FillInfo. */
  method FillInfoLoop(w: World, team: string, opTeam: string, side: Side, season: int,
                      date: string) returns (r: Result<(NVec, seq<Vec>)>)
    ensures r == FillInfo(w, team, opTeam, side, season, date)
  {
    var matches := FillMatches(w, team, side, season);
    if matches == [] {
      return Err(IndexError);
    }
    var league := matches[0].league;
    var gobTeam := GoodOrBad(w.reg, team, league, season);
    if gobTeam.Err? {
      return Err(gobTeam.error);
    }
    var gobOp := GoodOrBad(w.reg, opTeam, league, season);
    if gobOp.Err? {
      return Err(gobOp.error);
    }
    var c := FillContext(w, team, side, season, league, gobOp.value);
    var sc := ScanLoop(c, matches);
    if sc.Err? {
      return Err(sc.error);
    }
    var names := TodayNames(w, team, side, date);
    var ps := FillPlayersLoop(w, team, season, date, sc.value.games, names);
    if ps.Err? {
      return Err(ps.error);
    }
    return Ok((TeamMean(sc.value.sum, sc.value.s), ps.value));
  }

  /** fill_info's loop over the season's matches. */
  method ScanLoop(c: FillCtx, matches: seq<MatchInfo>) returns (r: Result<Scan>)
    ensures r == ScanUpTo(c, matches, |matches|)
  {
    var sum, games, s := Zeros(Width(TeamTable)), [], 0;
    var i := 0;
    while i < |matches|
      invariant i <= |matches|
      invariant ScanUpTo(c, matches, i) == Ok(Scan(sum, games, s))
    {
      var step := ScanStep(c, Scan(sum, games, s), matches[i]);
      if step.Err? {
        ScanStops(c, matches, i + 1, |matches|);
        return Err(step.error);
      }
      sum, games, s := step.value.sum, step.value.games, step.value.s;
      i := i + 1;
    }
    return Ok(Scan(sum, games, s));
  }

  /** fill_info's loop over today's lineup names. */
  /** One player of the fill_info loop: his position's table, then his average. */
  method FillPlayerIn(w: World, team: string, season: int, date: string, games: seq<Game>, pl: string)
    returns (r: Result<Vec>)
    ensures r == FillPlayer(w, team, season, date, games, pl)
  {
    if (pl, season, team) !in w.reg.nameToUrl || w.reg.nameToUrl[(pl, season, team)] !in w.reg.playerPos {
      return Err(KeyError);
    }
    var t := TableFor(w.reg.playerPos[w.reg.nameToUrl[(pl, season, team)]]);
    r := AverageLoop(games, pl, CurrentRows(w, t, team, season, date, pl), t);
  }

  method FillPlayersLoop(w: World, team: string, season: int, date: string, games: seq<Game>,
                         names: seq<string>) returns (r: Result<seq<Vec>>)
    ensures r == FillPlayersUpTo(w, team, season, date, games, names, |names|)
  {
    var ps: seq<Vec> := [];
    var j := 0;
    while j < |names|
      invariant j <= |names|
      invariant FillPlayersUpTo(w, team, season, date, games, names, j) == Ok(ps)
    {
      var v := FillPlayerIn(w, team, season, date, games, names[j]);
      if v.Err? {
        assert FillPlayersUpTo(w, team, season, date, games, names, j + 1) == Err(v.error);
        FillPlayersStop(w, team, season, date, games, names, j + 1, |names|);
        return Err(v.error);
      }
      ps := ps + [v.value];
      j := j + 1;
    }
    return Ok(ps);
  }

  // ---------------------------------------------------------------------------------------
  // get_info_from_dbs

  /** The player's rows of the match: same date and team, then same name. */
  function MatchRows(w: World, t: TableId, team: string, date: string, pl: string): seq<Row> {
    var db := Filter(w.tables.Of(t), (r: Row) => r.date == date && r.team == team);
    Filter(db, (r: Row) => r.name == pl)
  }

  /** One player's vector: his rows read as one vector, or zeros when he has none. */
  function DbPlayer(w: World, team: string, season: int, date: string, pl: string): (r: Result<Vec>)
  {
    if (pl, season, team) !in w.reg.nameToUrl then Err(KeyError)
    else
      var url := w.reg.nameToUrl[(pl, season, team)];
      if url !in w.reg.playerPos then Err(KeyError)
      else
        var t := TableFor(w.reg.playerPos[url]);
        var v := RowsVec(t, MatchRows(w, t, team, date, pl));
        Ok(if |v| > 0 then v else Zeros(Width(t)))
  }

  /** The player's vector has his table's width exactly when he has at most one row at the
      match; one row is read as it is. Wider vectors make get_from_history fail later. */
  lemma DbPlayerWidth(w: World, team: string, season: int, date: string, pl: string, t: TableId)
    requires DbPlayer(w, team, season, date, pl).Ok?
    requires t == TableFor(w.reg.playerPos[w.reg.nameToUrl[(pl, season, team)]])
    ensures var rows := MatchRows(w, t, team, date, pl);
            var v := DbPlayer(w, team, season, date, pl).value;
            && (|v| == Width(t) <==> |rows| <= 1)
            && (|rows| == 1 ==> v == RowVec(t, rows[0]))
            && (rows == [] ==> v == Zeros(Width(t)))
  {
    RowsVecWidth(t, MatchRows(w, t, team, date, pl));
  }

  function DbPlayersUpTo(w: World, team: string, season: int, date: string, lineup: seq<string>,
                         j: nat): (r: Result<seq<Vec>>)
    requires j <= |lineup|
    ensures r.Ok? ==> |r.value| == j
    decreases j
  {
    if j == 0 then Ok([])
    else
      var ps :- DbPlayersUpTo(w, team, season, date, lineup, j - 1);
      var v :- DbPlayer(w, team, season, date, lineup[j - 1]);
      Ok(ps + [v])
  }

  lemma {:induction false} DbPlayersStop(w: World, team: string, season: int, date: string,
                                         lineup: seq<string>, i: nat, k: nat)
    requires i <= k <= |lineup| && DbPlayersUpTo(w, team, season, date, lineup, i).Err?
    ensures DbPlayersUpTo(w, team, season, date, lineup, k) == DbPlayersUpTo(w, team, season, date, lineup, i)
    decreases k
  {
    if k > i {
      DbPlayersStop(w, team, season, date, lineup, i, k - 1);
    }
  }

  /** `teams.loc[(teams["name"] == team) & (teams["date"] == date)]`: no season in the
      mask. */
  function TeamRows(w: World, team: string, date: string): seq<Row> {
    Filter(w.tables.teams, (r: Row) => r.key.ident == team && r.date == date)
  }

  /** get_info_from_dbs: the team's row of the match and one vector per lineup name. */
  function InfoFromDbs(w: World, team: string, season: int, date: string, lineup: seq<string>)
    : (r: Result<(NVec, seq<Vec>)>)
    ensures r.Ok? ==> |r.value.1| == |lineup|
    ensures r.Ok? ==> (|r.value.0| == Width(TeamTable) <==> |TeamRows(w, team, date)| == 1)
  {
    RowsVecWidth(TeamTable, TeamRows(w, team, date));
    var ps :- DbPlayersUpTo(w, team, season, date, lineup, |lineup|);
    Ok((Lift(RowsVec(TeamTable, TeamRows(w, team, date))), ps))
  }

  /** get_info_from_dbs's loop, proved to compute InfoFromDbs. */
  method GetInfoFromDbs(w: World, team: string, season: int, date: string, lineup: seq<string>)
    returns (r: Result<(NVec, seq<Vec>)>)
    ensures r == InfoFromDbs(w, team, season, date, lineup)
  {
    var tstats := RowsVec(TeamTable, TeamRows(w, team, date));
    var ps: seq<Vec> := [];
    var j := 0;
    while j < |lineup|
      invariant j <= |lineup|
      invariant DbPlayersUpTo(w, team, season, date, lineup, j) == Ok(ps)
    {
      var v := DbPlayer(w, team, season, date, lineup[j]);
      if v.Err? {
        assert DbPlayersUpTo(w, team, season, date, lineup, j + 1) == Err(v.error);
        DbPlayersStop(w, team, season, date, lineup, j + 1, |lineup|);
        return Err(v.error);
      }
      ps := ps + [v.value];
      j := j + 1;
    }
    return Ok((Lift(tstats), ps));
  }

  // ---------------------------------------------------------------------------------------
  // get_result and the results transform stores

  /** The label of a match: the score in exact mode, "H", "X" or "A" otherwise. */
  datatype Label = Goals(home: int, away: int) | Mark(mark: string)

  function LabelWidth(l: Label): nat {
    if l.Goals? then 2 else 1
  }

  function GetResult(exact: bool, hg: int, ag: int): (l: Label)
    ensures exact <==> l.Goals?
    ensures exact ==> l == Goals(hg, ag)
    ensures !exact ==> (l == Mark("H") <==> hg > ag) && (l == Mark("X") <==> hg == ag)
                       && (l == Mark("A") <==> hg < ag)
  {
    if exact then Goals(hg, ag)
    else if hg > ag then Mark("H")
    else if hg == ag then Mark("X")
    else Mark("A")
  }

  /** `homeres, awayres` from the label. The score of exact mode matches none of the three
      tests, and reading the unset pair raises UnboundLocalError. */
  function Outcomes(l: Label): (r: Result<(string, string)>)
    ensures r.Err? <==> l.Goals? || l.mark !in {"H", "X", "A"}
  {
    if l == Mark("H") then Ok(("W", "L"))
    else if l == Mark("A") then Ok(("L", "W"))
    else if l == Mark("X") then Ok(("X", "X"))
    else Err(UnboundLocal)
  }

  /** Without exact results both sides always get a result, and each side's result is what
      the other side would get with the score reversed. */
  lemma OutcomesMirror(hg: int, ag: int)
    ensures Outcomes(GetResult(false, hg, ag)).Ok?
    ensures Outcomes(GetResult(false, hg, ag)).value.0 == Outcomes(GetResult(false, ag, hg)).value.1
    ensures Outcomes(GetResult(false, hg, ag)).value.1 == Outcomes(GetResult(false, ag, hg)).value.0
  {
  }

  /** A side that lost is stored with "L", which res_index does not know; exact mode never
      gets as far as a result. */
  lemma OutcomeIndices(hg: int, ag: int)
    ensures var o := Outcomes(GetResult(false, hg, ag)).value;
            && (ResIndex(o.0).None? <==> hg < ag)
            && (ResIndex(o.1).None? <==> hg > ag)
    ensures Outcomes(GetResult(true, hg, ag)) == Err(UnboundLocal)
  {
  }
}
