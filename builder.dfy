/** DatabaseBuilder: the transformer that turns the match list and the record tables into
    one feature row per match. It keeps a history per team and per player, newest entry
    first, and reads a match's row from the histories before it adds the match to them. */
module Builder {
  import opened Common
  import opened Schema
  import opened Feed
  import opened Vectors
  import opened History
  import opened Layout
  import opened Sources

  // ---------------------------------------------------------------------------------------
  // get_from_history and combine, as loops

  /** The team part of get_from_history: the sums of the team's history, then the
      divisions. A row of the wrong width stops it, as numpy's `+=` would. */
  method TeamLoop(hist: seq<Entry<NVec>>, k: Option<nat>) returns (r: Result<(NVec, Option<string>)>)
    requires |hist| > 0 && (k.Some? ==> 0 < k.value <= |hist|)
    ensures NUniform(StatsOf(hist), Width(TeamTable)) ==>
              r == Ok((TeamBlock(hist, k), if k.Some? then Some(hist[k.value - 1].date) else None))
    ensures !NUniform(StatsOf(hist), Width(TeamTable)) ==> r == Err(ShapeMismatch)
  {
    var sums := TeamSums(hist, if k.Some? then k.value else 0);
    if sums.None? {
      return Err(ShapeMismatch);
    }
    var (total, resTotal, form, resForm, lastDate) := sums.value;
    assert k.Some? ==> lastDate == Some(hist[k.value - 1].date);
    r := TeamDivide(hist, k, total, resTotal, form, resForm, lastDate);
  }

  /** The team loop: the season sum and counters, the sum and counters of the newest `kv`
      entries, and the date of the `kv`-th newest entry; None when a row is not 43 wide. */
  method TeamSums(hist: seq<Entry<NVec>>, kv: nat) returns (r: Option<(NVec, Vec, NVec, Vec, Option<string>)>)
    requires kv <= |hist|
    ensures r.None? <==> !NUniform(StatsOf(hist), Width(TeamTable))
    ensures r.Some? ==> var w := Width(TeamTable);
                        r.value == (NTotal(StatsOf(hist), w, |hist|), Tallies(hist, |hist|),
                                    NTotal(StatsOf(hist), w, kv), Tallies(hist, kv),
                                    DateAt(hist, kv))
  {
    var w := Width(TeamTable);
    ghost var vs := StatsOf(hist);
    var total, form := Lift(Zeros(w)), Lift(Zeros(w));
    var resTotal, resForm := Zeros(3), Zeros(3);
    var lastDate: Option<string> := None;
    var i := 0;
    while i < |hist|
      invariant i <= |hist| && NUniform(vs[..i], w)
      invariant (total, resTotal, form, resForm, lastDate) == TeamAcc(hist, kv, i)
    {
      if |hist[i].stats| != w {
        assert vs[i] == hist[i].stats;
        return None;
      }
      TeamAccStep(hist, kv, i);
      total := NPlus(total, hist[i].stats);
      resTotal := Tally(resTotal, hist[i].res);
      if i < kv {
        lastDate := Some(hist[i].date);
        form := NPlus(form, hist[i].stats);
        resForm := Tally(resForm, hist[i].res);
      }
      i := i + 1;
    }
    assert vs[..|hist|] == vs;
    return Some((total, resTotal, form, resForm, lastDate));
  }

  /** What the team loop holds after `i` entries. */
  function TeamAcc(hist: seq<Entry<NVec>>, kv: nat, i: nat): (NVec, Vec, NVec, Vec, Option<string>)
    requires i <= |hist| && kv <= |hist| && NUniform(StatsOf(hist)[..i], Width(TeamTable))
  {
    var vs, w, j := StatsOf(hist)[..i], Width(TeamTable), Min(i, kv);
    (NTotal(vs, w, i), Tallies(hist, i), NTotal(vs, w, j), Tallies(hist, j), DateAt(hist, j))
  }

  /** One pass of the team loop. */
  lemma TeamAccStep(hist: seq<Entry<NVec>>, kv: nat, i: nat)
    requires i < |hist| && kv <= |hist| && NUniform(StatsOf(hist)[..i], Width(TeamTable))
    requires |hist[i].stats| == Width(TeamTable)
    ensures NUniform(StatsOf(hist)[..i + 1], Width(TeamTable))
    ensures var a, e := TeamAcc(hist, kv, i), hist[i];
            TeamAcc(hist, kv, i + 1)
            == (NPlus(a.0, e.stats), Tally(a.1, e.res),
                if i < kv then NPlus(a.2, e.stats) else a.2,
                if i < kv then Tally(a.3, e.res) else a.3,
                if i < kv then Some(e.date) else a.4)
  {
    var vs, w := StatsOf(hist), Width(TeamTable);
    assert vs[i] == hist[i].stats;
    NUniformExtend(vs, w, i);
    NTotalExtend(vs, w, i, Min(i, kv));
  }

  /** The date of the `j`-th newest entry, None for `j = 0`. */
  function DateAt<V>(hist: seq<Entry<V>>, j: nat): Option<string>
    requires j <= |hist|
  {
    if j > 0 then Some(hist[j - 1].date) else None
  }

  /** The divisions after the team loop, and the date it found. */
  function TeamDivide(hist: seq<Entry<NVec>>, k: Option<nat>, total: NVec, resTotal: Vec,
                      form: NVec, resForm: Vec, lastDate: Option<string>): (r: Result<(NVec, Option<string>)>)
    requires |hist| > 0 && (k.Some? ==> 0 < k.value <= |hist|) && NUniform(StatsOf(hist), Width(TeamTable))
    requires total == NTotal(StatsOf(hist), Width(TeamTable), |hist|) && resTotal == Tallies(hist, |hist|)
    requires k.Some? ==> form == NTotal(StatsOf(hist), Width(TeamTable), k.value)
                         && resForm == Tallies(hist, k.value) && lastDate == Some(hist[k.value - 1].date)
    requires k.None? ==> lastDate == None
    ensures r == Ok((TeamBlock(hist, k), lastDate))
  {
    var n := |hist|;
    var block := NOver(total, n as real) + Lift(Over(resTotal, n as real));
    if k.None? then Ok((block, lastDate))
    else Ok((block + NOver(form, k.value as real) + Lift(Over(resForm, k.value as real)), lastDate))
  }

  /** The loop over one player's history in get_from_history, then the per-90 scaling and
      the goalkeeper's save ratio. */
  method PlayerLoop(hist: seq<Entry<Vec>>, keeper: bool, last: Option<string>, played: nat,
                    k: Option<nat>) returns (r: Result<(Vec, Vec)>)
    requires played > 0 && (last.Some? ==> k.Some? && k.value > 0)
    ensures r == PlayerPart(hist, keeper, last, played, k)
  {
    var w := Width(if keeper then KeeperTable else PlayerTable);
    var sums := PlayerSums(hist, w, last);
    if sums.None? {
      return Err(ShapeMismatch);
    }
    SumsReady(hist, w, last);
    var (singl, resTotal, form, resForm) := sums.value;
    r := PlayerFinish(singl, resTotal, form, resForm, keeper, last, played, k);
  }

  /** The sums of one player's history: `cpstat_singlepl`, `res_total`, `cpstat_form` and
      `res_form`; None when a row's width differs from `w`. */
  method PlayerSums(hist: seq<Entry<Vec>>, w: nat, last: Option<string>)
    returns (r: Option<(Vec, Vec, Vec, Vec)>)
    ensures r.None? <==> !Uniform(StatsOf(hist), w)
    ensures r.Some? ==> r.value == (Total(StatsOf(hist), w, |hist|), Tallies(hist, |hist|),
                                    FormTotal(hist, w, last, |hist|), FormTallies(hist, last, |hist|))
  {
    ghost var vs := StatsOf(hist);
    var singl, form := Zeros(w), Zeros(w);
    var resTotal, resForm := Zeros(3), Zeros(3);
    var i := 0;
    while i < |hist|
      invariant i <= |hist|
      invariant Uniform(vs[..i], w)
      invariant singl == Total(vs[..i], w, i)
      invariant form == FormTotal(hist[..i], w, last, i)
      invariant resTotal == Tallies(hist, i)
      invariant resForm == FormTallies(hist, last, i)
    {
      if |hist[i].stats| != w {
        assert vs[i] == hist[i].stats;
        return None;
      }
      assert vs[i] == hist[i].stats;
      UniformExtend(vs, w, i);
      TotalExtend(vs, w, i, i);
      FormTotalExtend(hist, w, last, i);
      singl := Plus(singl, hist[i].stats);
      resTotal := Tally(resTotal, hist[i].res);
      if InWindow(last, hist[i].date) {
        form := Plus(form, hist[i].stats);
        resForm := Tally(resForm, hist[i].res);
      }
      i := i + 1;
    }
    assert vs[..|hist|] == vs && hist[..|hist|] == hist;
    return Some((singl, resTotal, form, resForm));
  }

  /** The loop of get_from_history over `zip(lineup, starters)`. */
  method GroupsLoop(rd: Reading, lineup: seq<string>) returns (r: Result<Groups>)
    requires ReadingOk(rd)
    ensures r == GroupsUpTo(rd, lineup, ZipLength(lineup))
  {
    var gs := EmptyGroups();
    var n := ZipLength(lineup);
    var j := 0;
    while j < n
      invariant j <= n <= 23 && n <= |lineup|
      invariant GroupsUpTo(rd, lineup, j) == Ok(gs)
    {
      var next := AddLineupPlayer(rd, lineup, j, gs);
      if next.Err? {
        GroupsStop(rd, lineup, j + 1, n);
        return Err(next.error);
      }
      gs := next.value;
      j := j + 1;
    }
    return Ok(gs);
  }

  /** Name `j` of the lineup: its position, its history's part, added to its group. */
  method AddLineupPlayer(rd: Reading, lineup: seq<string>, j: nat, gs: Groups) returns (r: Result<Groups>)
    requires ReadingOk(rd) && j < |lineup| && j < 23 && GroupsUpTo(rd, lineup, j) == Ok(gs)
    ensures r == GroupsUpTo(rd, lineup, j + 1)
  {
    assert GroupsUpTo(rd, lineup, j + 1) == GroupStepAt(rd, lineup, j);
    var pl, starter := lineup[j], IsStarter(j);
    if (pl, rd.season, rd.team) !in rd.reg.nameToUrl
       || rd.reg.nameToUrl[(pl, rd.season, rd.team)] !in rd.reg.playerPos {
      return Err(KeyError);
    }
    var url := rd.reg.nameToUrl[(pl, rd.season, rd.team)];
    var pos := rd.reg.playerPos[url];
    var part := PlayerLoop(Get(rd.ph, (url, rd.season), []), pos == Goalkeeper, rd.last, rd.played, rd.k);
    if part.Err? {
      return Err(part.error);
    }
    return Ok(AddPlayer(gs, pos, starter, part.value));
  }

  /** The player half of get_from_history. */
  method PlayersLoop(rd: Reading, lineup: seq<string>) returns (r: Result<Vec>)
    requires ReadingOk(rd)
    ensures r == PlayerBlocks(rd, lineup)
  {
    var gs := GroupsLoop(rd, lineup);
    if gs.Err? {
      return Err(gs.error);
    }
    var v := Combine(gs.value, rd.k);
    return Ok(v);
  }

  /** combine: the eight group blocks appended in the fixed group order. */
  method Combine(gs: Groups, k: Option<nat>) returns (v: Vec)
    requires Shaped(gs)
    ensures v == Blocks(gs, k, 8)
  {
    v := [];
    var i := 0;
    while i < 8
      invariant i <= 8
      invariant v == Blocks(gs, k, i)
    {
      v := v + Block(gs[GroupAt(i)], k);
      i := i + 1;
    }
  }

  // ---------------------------------------------------------------------------------------
  // transform, as functions

  /** A row of transform's frame: the home vector, the away vector and the label. */
  datatype FeatureRow = FeatureRow(home: NVec, away: NVec, result: Label)

  function RowWidth(r: FeatureRow): nat {
    |r.home| + |r.away| + LabelWidth(r.result)
  }

  /** The lineups of a match: every lineup row of the season between the two teams, each
      side's names with the missing ones dropped. */
  function MatchLineups(w: World, m: MatchInfo): (ls: (seq<string>, seq<string>)) {
    var rows := Filter(w.lineups, (l: Lineup) => l.season == m.season && l.homeTeam == m.home
                                                 && l.awayTeam == m.away);
    (LineupNames(rows, Home), LineupNames(rows, Away))
  }

  /** The statistics a side's history gets from a match: fill_info's averages when the
      match has no detailed statistics, the match's own rows otherwise. */
  function MatchStats(w: World, m: MatchInfo, side: Side, lineup: seq<string>): Result<(NVec, seq<Vec>)> {
    if !m.advStats then FillInfo(w, SideTeam(m, side), SideTeam(m, Opposite(side)), side, m.season, m.date)
    else InfoFromDbs(w, SideTeam(m, side), m.season, m.date, lineup)
  }

  /** The histories after a match, and its row when both teams had enough history. */
  datatype Step = Step(th: TeamHistory, ph: PlayerHistory, row: Option<FeatureRow>)

  /** One pass of transform's loop. The two readings come first, then the label, the two
      sides' statistics, the outcomes (whose absence in exact mode only shows when
      add_to_history reads them), and the two additions. */
  function MatchStep(w: World, k: NGames, exact: bool, th: TeamHistory, ph: PlayerHistory,
                     m: MatchInfo): (r: Result<Step>)
  {
    var (hl, al) := MatchLineups(w, m);
    var hv :- FromHistory(th, ph, k, w.reg, m.home, m.season, hl);
    var av :- FromHistory(th, ph, k, w.reg, m.away, m.season, al);
    var lbl := GetResult(exact, m.homeGoals, m.awayGoals);
    var hs :- MatchStats(w, m, Home, hl);
    var aws :- MatchStats(w, m, Away, al);
    var res :- Outcomes(lbl);
    var h :- AddBoth(th, ph, w.reg, m, hl, al, hs, aws, res);
    Ok(Step(h.0, h.1, Emit(hv, av, lbl)))
  }

  /** The two add_to_history calls, home side first. */
  function AddBoth(th: TeamHistory, ph: PlayerHistory, reg: Registry, m: MatchInfo,
                   hl: seq<string>, al: seq<string>, hs: (NVec, seq<Vec>), aws: (NVec, seq<Vec>),
                   res: (string, string)): Result<(TeamHistory, PlayerHistory)>
  {
    var h1 :- AddHistory(th, ph, reg, m.home, m.season, hs.0, hs.1, hl, m.date, res.0);
    AddHistory(h1.0, h1.1, reg, m.away, m.season, aws.0, aws.1, al, m.date, res.1)
  }

  /** `X.loc[len(X)] = ...` runs only when both readings gave a vector. */
  function Emit(hv: Option<NVec>, av: Option<NVec>, lbl: Label): Option<FeatureRow> {
    if hv.Some? && av.Some? then Some(FeatureRow(hv.value, av.value, lbl)) else None
  }

  /** The histories and the rows after the first `i` matches. */
  datatype Run = Run(th: TeamHistory, ph: PlayerHistory, rows: seq<FeatureRow>)

  /** One pass of transform's loop as a value: what one match does to the histories. */
  type Pass = (TeamHistory, PlayerHistory, MatchInfo) -> Result<Step>

  function PassOf(w: World, k: NGames, exact: bool): Pass {
    (th: TeamHistory, ph: PlayerHistory, m: MatchInfo) => MatchStep(w, k, exact, th, ph, m)
  }

  /** The loop over the first `i` matches of `ms` for a given pass. */
  function Runs(pass: Pass, ms: seq<MatchInfo>, th: TeamHistory, ph: PlayerHistory, i: nat): Result<Run>
    requires i <= |ms|
    decreases i, 0
  {
    if i == 0 then Ok(Run(th, ph, [])) else RunAt(pass, ms, th, ph, i - 1)
  }

  /** The loop's pass over match `i`: the histories carry over from the earlier passes, the
      rows accumulate, and the first exception ends the loop. */
  function RunAt(pass: Pass, ms: seq<MatchInfo>, th: TeamHistory, ph: PlayerHistory, i: nat): Result<Run>
    requires i < |ms|
    decreases i, 1
  {
    var run :- Runs(pass, ms, th, ph, i);
    var st :- pass(run.th, run.ph, ms[i]);
    Ok(Run(st.th, st.ph, run.rows + Emitted(st.row)))
  }

  function Emitted(row: Option<FeatureRow>): seq<FeatureRow> {
    if row.Some? then [row.value] else []
  }

  /** transform's loop over the first `i` matches of the match list. */
  function TransformUpTo(w: World, k: NGames, exact: bool, th: TeamHistory, ph: PlayerHistory,
                         i: nat): Result<Run>
    requires i <= |w.ginf|
  {
    Runs(PassOf(w, k, exact), w.ginf, th, ph, i)
  }

  /** A loop over `i + 1` matches is the loop over `i` matches and one more pass. */
  lemma RunsNext(pass: Pass, ms: seq<MatchInfo>, th: TeamHistory, ph: PlayerHistory, i: nat)
    requires i < |ms|
    ensures var before := Runs(pass, ms, th, ph, i);
            && (before.Err? ==> Runs(pass, ms, th, ph, i + 1) == before)
            && (before.Ok? ==>
                  var st := pass(before.value.th, before.value.ph, ms[i]);
                  && (st.Ok? ==> Runs(pass, ms, th, ph, i + 1)
                                 == Ok(Run(st.value.th, st.value.ph, before.value.rows + Emitted(st.value.row))))
                  && (st.Err? ==> Runs(pass, ms, th, ph, i + 1) == Err(st.error)))
  {
    assert Runs(pass, ms, th, ph, i + 1) == RunAt(pass, ms, th, ph, i);
  }

  /** An exception ends the loop: the error of the failed match is the result. */
  lemma {:induction false} RunsStop(pass: Pass, ms: seq<MatchInfo>, th: TeamHistory, ph: PlayerHistory,
                                    i: nat, n: nat)
    requires i <= n <= |ms| && Runs(pass, ms, th, ph, i).Err?
    ensures Runs(pass, ms, th, ph, n) == Runs(pass, ms, th, ph, i)
    decreases n
  {
    if n > i {
      RunsStop(pass, ms, th, ph, i, n - 1);
      RunsNext(pass, ms, th, ph, n - 1);
    }
  }

  predicate RowsOf(row: Option<FeatureRow>, width: nat) {
    row.Some? ==> RowWidth(row.value) == width
  }

  /** A pass that only succeeds without exact results and only emits rows of one width
      gives a loop whose rows all have that width. */
  lemma {:induction false} RunsRows(pass: Pass, ms: seq<MatchInfo>, th: TeamHistory, ph: PlayerHistory,
                                    i: nat, width: nat, exact: bool)
    requires i <= |ms| && Runs(pass, ms, th, ph, i).Ok?
    requires forall t, p, m :: pass(t, p, m).Ok? ==> !exact && RowsOf(pass(t, p, m).value.row, width)
    ensures var rows := Runs(pass, ms, th, ph, i).value.rows;
            && (forall j :: 0 <= j < |rows| ==> RowWidth(rows[j]) == width)
            && (rows != [] ==> !exact)
    decreases i
  {
    if i > 0 {
      RunsNext(pass, ms, th, ph, i - 1);
      RunsRows(pass, ms, th, ph, i - 1, width, exact);
      var run := Runs(pass, ms, th, ph, i - 1).value;
      assert RowsOf(pass(run.th, run.ph, ms[i - 1]).value.row, width);
    }
  }

  /** A pass that adds `Appearances` entries to a team's list gives a loop that adds one per
      match of the season the team played. */
  lemma {:induction false} RunsCounts(pass: Pass, ms: seq<MatchInfo>, th: TeamHistory, ph: PlayerHistory,
                                      i: nat, team: string, season: int)
    requires i <= |ms| && Runs(pass, ms, th, ph, i).Ok?
    requires forall t, p, m :: pass(t, p, m).Ok? ==>
               |Get(pass(t, p, m).value.th, (team, season), [])| == |Get(t, (team, season), [])| + Appearances(m, team, season)
    ensures |Get(Runs(pass, ms, th, ph, i).value.th, (team, season), [])|
            == |Get(th, (team, season), [])| + Played(ms, i, team, season)
    decreases i
  {
    if i > 0 {
      RunsNext(pass, ms, th, ph, i - 1);
      RunsCounts(pass, ms, th, ph, i - 1, team, season);
    }
  }

  /** Transform over `i + 1` matches is transform over `i` matches and one more pass, and an
      exception in that pass is the result of the whole transform. */
  lemma RunNext(w: World, k: NGames, exact: bool, th: TeamHistory, ph: PlayerHistory, i: nat,
                run: Run, st: Result<Step>)
    requires i < |w.ginf| && TransformUpTo(w, k, exact, th, ph, i) == Ok(run)
    requires st == MatchStep(w, k, exact, run.th, run.ph, w.ginf[i])
    ensures st.Ok? ==> TransformUpTo(w, k, exact, th, ph, i + 1)
                       == Ok(Run(st.value.th, st.value.ph, run.rows + Emitted(st.value.row)))
    ensures st.Err? ==> TransformUpTo(w, k, exact, th, ph, |w.ginf|) == Err(st.error)
  {
    var pass := PassOf(w, k, exact);
    assert pass(run.th, run.ph, w.ginf[i]) == st;
    RunsThen(pass, w.ginf, th, ph, i, run, st);
  }

  /** One pass after `i` successful ones, for any pass. */
  lemma RunsThen(pass: Pass, ms: seq<MatchInfo>, th: TeamHistory, ph: PlayerHistory, i: nat,
                 run: Run, st: Result<Step>)
    requires i < |ms| && Runs(pass, ms, th, ph, i) == Ok(run) && st == pass(run.th, run.ph, ms[i])
    ensures st.Ok? ==> Runs(pass, ms, th, ph, i + 1)
                       == Ok(Run(st.value.th, st.value.ph, run.rows + Emitted(st.value.row)))
    ensures st.Err? ==> Runs(pass, ms, th, ph, |ms|) == Err(st.error)
  {
    RunsNext(pass, ms, th, ph, i);
    if st.Err? {
      RunsStop(pass, ms, th, ph, i + 1, |ms|);
    }
  }

  /** A transform over `i + 1` matches that succeeds went through the first `i` and through
      match `i` without an exception. */
  lemma TransformOk(w: World, k: NGames, exact: bool, th: TeamHistory, ph: PlayerHistory, i: nat)
    requires i < |w.ginf| && TransformUpTo(w, k, exact, th, ph, i + 1).Ok?
    ensures var before := TransformUpTo(w, k, exact, th, ph, i);
            && before.Ok?
            && var st := MatchStep(w, k, exact, before.value.th, before.value.ph, w.ginf[i]);
               && st.Ok?
               && TransformUpTo(w, k, exact, th, ph, i + 1).value
                  == Run(st.value.th, st.value.ph, before.value.rows + Emitted(st.value.row))
  {
    RunsNext(PassOf(w, k, exact), w.ginf, th, ph, i);
  }

  /** An exception ends transform: the error of the failed match is the result. */
  lemma TransformStops(w: World, k: NGames, exact: bool, th: TeamHistory, ph: PlayerHistory, i: nat, n: nat)
    requires i <= n <= |w.ginf| && TransformUpTo(w, k, exact, th, ph, i).Err?
    ensures TransformUpTo(w, k, exact, th, ph, n) == TransformUpTo(w, k, exact, th, ph, i)
  {
    RunsStop(PassOf(w, k, exact), w.ginf, th, ph, i, n);
  }

  // ---------------------------------------------------------------------------------------
  // What transform promises

  /** A match emits a row exactly when both teams already had enough history before it:
      the histories are read before the match is added to them. */
  lemma StepEmits(w: World, k: NGames, exact: bool, th: TeamHistory, ph: PlayerHistory, m: MatchInfo)
    requires MatchStep(w, k, exact, th, ph, m).Ok?
    ensures MatchStep(w, k, exact, th, ph, m).value.row.Some?
            <==> !TooShort(th, m.home, m.season, k) && !TooShort(th, m.away, m.season, k)
  {
    var (hl, al) := MatchLineups(w, m);
    StepReads(w, k, exact, th, ph, m);
    EmitIff(FromHistory(th, ph, k, w.reg, m.home, m.season, hl),
            FromHistory(th, ph, k, w.reg, m.away, m.season, al),
            GetResult(exact, m.homeGoals, m.awayGoals));
  }

  /** The row of a pass is built from the two readings taken before the additions. */
  lemma StepReads(w: World, k: NGames, exact: bool, th: TeamHistory, ph: PlayerHistory, m: MatchInfo)
    requires MatchStep(w, k, exact, th, ph, m).Ok?
    ensures var (hl, al) := MatchLineups(w, m);
            var hv := FromHistory(th, ph, k, w.reg, m.home, m.season, hl);
            var av := FromHistory(th, ph, k, w.reg, m.away, m.season, al);
            && hv.Ok? && av.Ok?
            && MatchStep(w, k, exact, th, ph, m).value.row
               == Emit(hv.value, av.value, GetResult(exact, m.homeGoals, m.awayGoals))
  {
    StepHomeRead(w, k, exact, th, ph, m);
    StepAwayRead(w, k, exact, th, ph, m);
  }

  /** A pass that succeeds read the home team's history without an exception. */
  lemma StepHomeRead(w: World, k: NGames, exact: bool, th: TeamHistory, ph: PlayerHistory, m: MatchInfo)
    requires MatchStep(w, k, exact, th, ph, m).Ok?
    ensures FromHistory(th, ph, k, w.reg, m.home, m.season, MatchLineups(w, m).0).Ok?
  {
  }

  /** A pass that succeeds read the away team's history without an exception. */
  lemma StepAwayRead(w: World, k: NGames, exact: bool, th: TeamHistory, ph: PlayerHistory, m: MatchInfo)
    requires MatchStep(w, k, exact, th, ph, m).Ok?
    ensures FromHistory(th, ph, k, w.reg, m.away, m.season, MatchLineups(w, m).1).Ok?
  {
  }

  lemma EmitIff(hv: Result<Option<NVec>>, av: Result<Option<NVec>>, lbl: Label)
    requires hv.Ok? && av.Ok?
    ensures Emit(hv.value, av.value, lbl).Some? <==> hv != Ok(None) && av != Ok(None)
  {
  }

  /** A row is never built in exact mode (the outcome pair is then unset), and a row has two
      side vectors of the layout's length and one label column. */
  lemma StepRow(w: World, k: NGames, exact: bool, th: TeamHistory, ph: PlayerHistory, m: MatchInfo)
    requires MatchStep(w, k, exact, th, ph, m).Ok?
    ensures !exact
    ensures var row := MatchStep(w, k, exact, th, ph, m).value.row;
            row.Some? ==> RowWidth(row.value) == 2 * FeatureSize(k) + 1 && row.value.result.Mark?
  {
    var hv, av, lbl := StepParts(w, k, exact, th, ph, m);
    EmitRow(hv, av, lbl, k);
  }

  /** The pieces a pass's row is made of: the two readings of the histories and the label. */
  lemma StepParts(w: World, k: NGames, exact: bool, th: TeamHistory, ph: PlayerHistory, m: MatchInfo)
    returns (hv: Option<NVec>, av: Option<NVec>, lbl: Label)
    requires MatchStep(w, k, exact, th, ph, m).Ok?
    ensures lbl == GetResult(exact, m.homeGoals, m.awayGoals) && Outcomes(lbl).Ok?
    ensures hv.Some? ==> |hv.value| == FeatureSize(k)
    ensures av.Some? ==> |av.value| == FeatureSize(k)
    ensures MatchStep(w, k, exact, th, ph, m).value.row == Emit(hv, av, lbl)
  {
    var (hl, al) := MatchLineups(w, m);
    StepReads(w, k, exact, th, ph, m);
    StepOutcome(w, k, exact, th, ph, m);
    hv := FromHistory(th, ph, k, w.reg, m.home, m.season, hl).value;
    av := FromHistory(th, ph, k, w.reg, m.away, m.season, al).value;
    lbl := GetResult(exact, m.homeGoals, m.awayGoals);
  }

  /** A pass that succeeds had a result mark to split into the two outcomes. */
  lemma StepOutcome(w: World, k: NGames, exact: bool, th: TeamHistory, ph: PlayerHistory, m: MatchInfo)
    requires MatchStep(w, k, exact, th, ph, m).Ok?
    ensures Outcomes(GetResult(exact, m.homeGoals, m.awayGoals)).Ok?
  {
  }

  /** A row emitted from two readings of one length and a result mark. */
  lemma EmitRow(hv: Option<NVec>, av: Option<NVec>, lbl: Label, k: NGames)
    requires Outcomes(lbl).Ok?
    requires hv.Some? ==> |hv.value| == FeatureSize(k)
    requires av.Some? ==> |av.value| == FeatureSize(k)
    ensures lbl.Mark?
    ensures Emit(hv, av, lbl).Some? ==> RowWidth(Emit(hv, av, lbl).value) == 2 * FeatureSize(k) + 1
  {
  }

  /** How many history entries a team gains from a match of a season. */
  function Appearances(m: MatchInfo, team: string, season: int): nat {
    if m.season != season then 0
    else (if m.home == team then 1 else 0) + (if m.away == team then 1 else 0)
  }

  /** The matches of the first `i` in the list that the team played in the season. */
  function Played(ginf: seq<MatchInfo>, i: nat, team: string, season: int): (n: nat)
    requires i <= |ginf|
    ensures n <= 2 * i
    decreases i
  {
    if i == 0 then 0 else Played(ginf, i - 1, team, season) + Appearances(ginf[i - 1], team, season)
  }

  /** Each match puts one entry at the front of its home and of its away team's list. */
  lemma StepCounts(w: World, k: NGames, exact: bool, th: TeamHistory, ph: PlayerHistory,
                   m: MatchInfo, team: string, season: int)
    requires MatchStep(w, k, exact, th, ph, m).Ok?
    ensures |Get(MatchStep(w, k, exact, th, ph, m).value.th, (team, season), [])|
            == |Get(th, (team, season), [])| + Appearances(m, team, season)
  {
    var (hl, al) := MatchLineups(w, m);
    var hs := MatchStats(w, m, Home, hl);
    var aws := MatchStats(w, m, Away, al);
    var res := Outcomes(GetResult(exact, m.homeGoals, m.awayGoals));
    assert hs.Ok? && aws.Ok? && res.Ok?;
    var h := AddBoth(th, ph, w.reg, m, hl, al, hs.value, aws.value, res.value);
    assert h.Ok? && MatchStep(w, k, exact, th, ph, m).value.th == h.value.0;
    AddBothCounts(th, ph, w.reg, m, hl, al, hs.value, aws.value, res.value, team, season);
  }

  lemma AddBothCounts(th: TeamHistory, ph: PlayerHistory, reg: Registry, m: MatchInfo,
                      hl: seq<string>, al: seq<string>, hs: (NVec, seq<Vec>), aws: (NVec, seq<Vec>),
                      res: (string, string), team: string, season: int)
    requires AddBoth(th, ph, reg, m, hl, al, hs, aws, res).Ok?
    ensures |Get(AddBoth(th, ph, reg, m, hl, al, hs, aws, res).value.0, (team, season), [])|
            == |Get(th, (team, season), [])| + Appearances(m, team, season)
  {
    AddHistoryFront(th, ph, reg, m.home, m.season, hs.0, hs.1, hl, m.date, res.0);
    var h1 := AddHistory(th, ph, reg, m.home, m.season, hs.0, hs.1, hl, m.date, res.0).value;
    AddHistoryFront(h1.0, h1.1, reg, m.away, m.season, aws.0, aws.1, al, m.date, res.1);
  }

  /** Starting from empty histories, a team's list for a season holds one entry per match
      of that season it has played so far. */
  lemma TransformCounts(w: World, k: NGames, exact: bool, i: nat, team: string, season: int)
    requires i <= |w.ginf| && TransformUpTo(w, k, exact, map[], map[], i).Ok?
    ensures |Get(TransformUpTo(w, k, exact, map[], map[], i).value.th, (team, season), [])|
            == Played(w.ginf, i, team, season)
  {
    var pass := PassOf(w, k, exact);
    forall t, p, m | pass(t, p, m).Ok?
      ensures |Get(pass(t, p, m).value.th, (team, season), [])|
              == |Get(t, (team, season), [])| + Appearances(m, team, season)
    {
      StepCounts(w, k, exact, t, p, m, team, season);
    }
    RunsCounts(pass, w.ginf, map[], map[], i, team, season);
  }

  /** The number of entries a window needs: `n_games`, or one for the season average. */
  function Need(k: Option<nat>): nat {
    if k.Some? then k.value else 1
  }

  /** From empty histories, match `i` gets a row exactly when both its teams have played at
      least `Need(k)` earlier matches of its season. */
  lemma EmitIffPlayed(w: World, k: NGames, exact: bool, i: nat)
    requires i < |w.ginf| && TransformUpTo(w, k, exact, map[], map[], i + 1).Ok?
    ensures var m := w.ginf[i];
            var before := TransformUpTo(w, k, exact, map[], map[], i);
            && before.Ok?
            && (|TransformUpTo(w, k, exact, map[], map[], i + 1).value.rows| == |before.value.rows| + 1
                <==> Played(w.ginf, i, m.home, m.season) >= Need(k)
                     && Played(w.ginf, i, m.away, m.season) >= Need(k))
            && (|TransformUpTo(w, k, exact, map[], map[], i + 1).value.rows| == |before.value.rows|
                <==> Played(w.ginf, i, m.home, m.season) < Need(k)
                     || Played(w.ginf, i, m.away, m.season) < Need(k))
  {
    var m := w.ginf[i];
    TransformOk(w, k, exact, map[], map[], i);
    var run := TransformUpTo(w, k, exact, map[], map[], i).value;
    TransformCounts(w, k, exact, i, m.home, m.season);
    TransformCounts(w, k, exact, i, m.away, m.season);
    StepEmits(w, k, exact, run.th, run.ph, m);
  }

  /** Every row transform emits has two feature vectors and one label, so rows exist only
      without exact results. */
  lemma RowsFit(w: World, k: NGames, exact: bool, th: TeamHistory, ph: PlayerHistory, i: nat)
    requires i <= |w.ginf| && TransformUpTo(w, k, exact, th, ph, i).Ok?
    ensures var rows := TransformUpTo(w, k, exact, th, ph, i).value.rows;
            && (forall j :: 0 <= j < |rows| ==> RowWidth(rows[j]) == 2 * FeatureSize(k) + 1)
            && (rows != [] ==> !exact)
  {
    var pass := PassOf(w, k, exact);
    forall t, p, m | pass(t, p, m).Ok?
      ensures !exact && RowsOf(pass(t, p, m).value.row, 2 * FeatureSize(k) + 1)
    {
      StepRow(w, k, exact, t, p, m);
    }
    RunsRows(pass, w.ginf, th, ph, i, 2 * FeatureSize(k) + 1, exact);
  }

  /** Without exact results the fitted columns are two feature vectors and one label. */
  lemma ColumnsWidth(k: Option<nat>, exact: bool)
    requires !exact
    ensures ColumnCount(CorrectedColumns(k, exact)) == 2 * FeatureSize(k) + 1
  {
    CorrectedColumnsAligned(k, exact);
    RowLayoutCount(k, exact);
  }

  /** The list fit builds, as written, names two feature vectors and the label columns:
      as many names as a row has values. */
  lemma FitWidth(k: Option<nat>, exact: bool, cs: seq<Segment>)
    requires cs == FitColumns(k, exact)
    ensures ColumnCount(cs) == 2 * FeatureSize(k) + (if exact then 2 else 1)
  {
    FitColumnsCount(k, exact);
    RowLayoutCount(k, exact);
  }

  /** In exact-results mode transform fails on the first match and emits nothing; when the
      first match's readings and statistics succeed the failure is the unset outcome pair. */
  lemma ExactModeFails(w: World, k: NGames, th: TeamHistory, ph: PlayerHistory, i: nat)
    requires 0 < i <= |w.ginf|
    ensures TransformUpTo(w, k, true, th, ph, i).Err?
    ensures var m := w.ginf[0];
            var (hl, al) := MatchLineups(w, m);
            && FromHistory(th, ph, k, w.reg, m.home, m.season, hl).Ok?
            && FromHistory(th, ph, k, w.reg, m.away, m.season, al).Ok?
            && MatchStats(w, m, Home, hl).Ok? && MatchStats(w, m, Away, al).Ok?
            ==> TransformUpTo(w, k, true, th, ph, i) == Err(UnboundLocal)
  {
    assert TransformUpTo(w, k, true, th, ph, 1).Err? by {
      if MatchStep(w, k, true, th, ph, w.ginf[0]).Ok? {
        StepRow(w, k, true, th, ph, w.ginf[0]);
      }
    }
    TransformStops(w, k, true, th, ph, 1, i);
  }

  // ---------------------------------------------------------------------------------------
  // The transformer object

  class DatabaseBuilder {
    /** `n_games`: None reads the season average only. */
    const nGames: NGames
    /** `exact_results` */
    const exact: bool
    var teamHistory: TeamHistory
    var playerHistory: PlayerHistory
    /** `columns_`, set by fit. */
    var columns: Option<seq<Segment>>

    constructor (nGames: NGames, exact: bool)
      ensures this.nGames == nGames && this.exact == exact
      ensures teamHistory == map[] && playerHistory == map[] && columns == None
    {
      this.nGames := nGames;
      this.exact := exact;
      teamHistory := map[];
      playerHistory := map[];
      columns := None;
    }

    /** fit: the column names, in the order fit lists them. There are as many as transform's
        rows have values (FitWidth), but they are not the rows' layout (FitColumnsMisaligned). */
    method Fit()
      modifies this
      ensures columns == Some(FitColumns(nGames, exact))
      ensures teamHistory == old(teamHistory) && playerHistory == old(playerHistory)
    {
      columns := Some(FitColumns(nGames, exact));
    }

    method GetFromHistory(reg: Registry, team: string, season: int, lineup: seq<string>)
      returns (r: Result<Option<NVec>>)
      ensures r == FromHistory(teamHistory, playerHistory, nGames, reg, team, season, lineup)
    {
      if TooShort(teamHistory, team, season, nGames) {
        return Ok(None);
      }
      var hist := teamHistory[(team, season)];
      var tb := TeamLoop(hist, nGames);
      if tb.Err? {
        return Err(tb.error);
      }
      var block := tb.value.0;
      var last := tb.value.1;
      var rd := Reading(playerHistory, reg, team, season, last, |hist|, nGames);
      var players := PlayersLoop(rd, lineup);
      if players.Err? {
        return Err(players.error);
      }
      return Ok(Some(block + Lift(players.value)));
    }

    method AddToHistory(reg: Registry, team: string, season: int, tstats: NVec, pstats: seq<Vec>,
                        lineup: seq<string>, date: string, res: string) returns (err: Option<Error>)
      modifies this
      ensures columns == old(columns)
      ensures teamHistory == Prepend(old(teamHistory), (team, season), Entry(res, date, tstats))
      ensures var r := AddHistory(old(teamHistory), old(playerHistory), reg, team, season, tstats,
                                  pstats, lineup, date, res);
              && (r.Ok? ==> err == None && r.value == (teamHistory, playerHistory))
              && (r.Err? ==> err == Some(r.error))
    {
      teamHistory := Prepend(teamHistory, (team, season), Entry(res, date, tstats));
      ghost var ph0 := playerHistory;
      var n := Min(|lineup|, |pstats|);
      var j := 0;
      while j < n
        invariant j <= n
        invariant columns == old(columns)
        invariant teamHistory == Prepend(old(teamHistory), (team, season), Entry(res, date, tstats))
        invariant PrependPlayers(ph0, reg, team, season, lineup, pstats, date, res, j) == Ok(playerHistory)
      {
        if (lineup[j], season, team) !in reg.nameToUrl {
          PrependPlayersStop(ph0, reg, team, season, lineup, pstats, date, res, j + 1, n);
          return Some(KeyError);
        }
        var url := reg.nameToUrl[(lineup[j], season, team)];
        playerHistory := Prepend(playerHistory, (url, season), Entry(res, date, pstats[j]));
        j := j + 1;
      }
      return None;
    }

    /** One pass of transform's loop over the match list. */
    method ProcessMatch(w: World, m: MatchInfo) returns (st: Result<Step>)
      modifies this
      ensures columns == old(columns)
      ensures st == MatchStep(w, nGames, exact, old(teamHistory), old(playerHistory), m)
      ensures st.Ok? ==> teamHistory == st.value.th && playerHistory == st.value.ph
    {
      var (hl, al) := MatchLineups(w, m);
      var hv := GetFromHistory(w.reg, m.home, m.season, hl);
      if hv.Err? {
        return Err(hv.error);
      }
      var av := GetFromHistory(w.reg, m.away, m.season, al);
      if av.Err? {
        return Err(av.error);
      }
      var lbl := GetResult(exact, m.homeGoals, m.awayGoals);
      var hs, aws;
      if !m.advStats {
        hs := FillInfoLoop(w, m.home, m.away, Home, m.season, m.date);
        if hs.Err? {
          return Err(hs.error);
        }
        aws := FillInfoLoop(w, m.away, m.home, Away, m.season, m.date);
      } else {
        hs := GetInfoFromDbs(w, m.home, m.season, m.date, hl);
        if hs.Err? {
          return Err(hs.error);
        }
        aws := GetInfoFromDbs(w, m.away, m.season, m.date, al);
      }
      if aws.Err? {
        return Err(aws.error);
      }
      var res := Outcomes(lbl);
      if res.Err? {
        return Err(res.error);
      }
      var e := AddToHistory(w.reg, m.home, m.season, hs.value.0, hs.value.1, hl, m.date, res.value.0);
      if e.Some? {
        return Err(e.value);
      }
      e := AddToHistory(w.reg, m.away, m.season, aws.value.0, aws.value.1, al, m.date, res.value.1);
      if e.Some? {
        return Err(e.value);
      }
      var row := if hv.value.Some? && av.value.Some? then Some(FeatureRow(hv.value.value, av.value.value, lbl))
                 else None;
      return Ok(Step(teamHistory, playerHistory, row));
    }

    /** transform: AttributeError before fit; otherwise every match in turn, stopping at the
        first exception. The rows have the fitted columns' width. */
    method Transform(w: World) returns (rows: seq<FeatureRow>, err: Option<Error>)
      modifies this
      ensures columns == old(columns)
      ensures old(columns).None? ==> err == Some(AttributeError) && rows == []
                                     && teamHistory == old(teamHistory) && playerHistory == old(playerHistory)
      ensures old(columns).Some? ==>
                var r := TransformUpTo(w, nGames, exact, old(teamHistory), old(playerHistory), |w.ginf|);
                && (r.Ok? ==> err == None && r.value == Run(teamHistory, playerHistory, rows))
                && (r.Err? ==> err == Some(r.error))
      ensures err.None? ==> columns.Some? && (rows != [] ==> !exact)
                            && forall j :: 0 <= j < |rows| ==> RowWidth(rows[j]) == 2 * FeatureSize(nGames) + 1
    {
      if columns.None? {
        return [], Some(AttributeError);
      }
      ghost var th0, ph0 := teamHistory, playerHistory;
      rows, err := TransformRows(w);
      if err.None? {
        RowsFit(w, nGames, exact, th0, ph0, |w.ginf|);
      }
    }

    /** One pass of transform's loop: match `i` after the first `i` went through. */
    method NextMatch(w: World, i: nat, ghost th0: TeamHistory, ghost ph0: PlayerHistory,
                     ghost rows: seq<FeatureRow>) returns (st: Result<Step>)
      requires i < |w.ginf|
      requires TransformUpTo(w, nGames, exact, th0, ph0, i) == Ok(Run(teamHistory, playerHistory, rows))
      modifies this
      ensures columns == old(columns)
      ensures st.Ok? ==> TransformUpTo(w, nGames, exact, th0, ph0, i + 1)
                         == Ok(Run(teamHistory, playerHistory, rows + Emitted(st.value.row)))
      ensures st.Err? ==> TransformUpTo(w, nGames, exact, th0, ph0, |w.ginf|) == Err(st.error)
    {
      ghost var run := Run(teamHistory, playerHistory, rows);
      st := ProcessMatch(w, w.ginf[i]);
      RunNext(w, nGames, exact, th0, ph0, i, run, st);
    }

    /** The loop of transform over the match list. */
    method TransformRows(w: World) returns (rows: seq<FeatureRow>, err: Option<Error>)
      modifies this
      ensures columns == old(columns)
      ensures var r := TransformUpTo(w, nGames, exact, old(teamHistory), old(playerHistory), |w.ginf|);
              && (r.Ok? ==> err == None && r.value == Run(teamHistory, playerHistory, rows))
              && (r.Err? ==> err == Some(r.error))
    {
      ghost var th0, ph0 := teamHistory, playerHistory;
      rows := [];
      var i := 0;
      while i < |w.ginf|
        invariant i <= |w.ginf|
        invariant columns == old(columns)
        invariant TransformUpTo(w, nGames, exact, th0, ph0, i) == Ok(Run(teamHistory, playerHistory, rows))
      {
        var st := NextMatch(w, i, th0, ph0, rows);
        if st.Err? {
          return rows, Some(st.error);
        }
        rows := rows + Emitted(st.value.row);
        i := i + 1;
      }
      return rows, None;
    }
  }
}
