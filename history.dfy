/** The feature builder's match histories and what get_from_history reads out of them
    (database_build.py:825-963). A history is a list of (result, date, stats) entries, newest
    first; the team histories are keyed by (team, season), the player histories by
    (url, season). */
module History {
  import opened Common
  import opened Schema
  import opened Feed
  import opened Vectors

  /** One `(result, date, stats)` tuple of a history list. */
  datatype Entry<V> = Entry(res: string, date: string, stats: V)

  /** Team stats may hold NaN (fill_info's 0/0); player stats never do. */
  type TeamHistory = map<(string, int), seq<Entry<NVec>>>
  type PlayerHistory = map<(string, int), seq<Entry<Vec>>>

  /** `len(self.team_stats_)`, `len(self.player_stat_)`, `len(self.keeper_stat_)`. */
  function Width(t: TableId): nat {
    match t
    case TeamTable => 43
    case PlayerTable => 22
    case KeeperTable => 17
  }

  /** The widths are the lengths of the column schedules. */
  lemma WidthCounts(t: TableId)
    ensures Width(t) == |Columns(t)|
  {
    ColumnFacts();
  }

  function StatsOf<V>(es: seq<Entry<V>>): (vs: seq<V>)
    ensures |vs| == |es| && forall i :: 0 <= i < |es| ==> vs[i] == es[i].stats
  {
    seq(|es|, i requires 0 <= i < |es| => es[i].stats)
  }

  // ---------------------------------------------------------------------------------------
  // Result counters

  /** `res_index`: "W" is 0, "X" is 1, "A" is 2, and every other result (the "L" that
      transform stores among them) has no index. */
  function ResIndex(res: string): (r: Option<nat>)
    ensures r == Some(0) <==> res == "W"
    ensures r == Some(1) <==> res == "X"
    ensures r == Some(2) <==> res == "A"
    ensures r.None? <==> res != "W" && res != "X" && res != "A"
  {
    if res == "W" then Some(0)
    else if res == "X" then Some(1)
    else if res == "A" then Some(2)
    else None
  }

  /** `counts[self.res_index(res)] += 1`. Without an index numpy reads `counts[None]` as the
      whole array, so all three counters grow. */
  function Tally(c: Vec, res: string): (d: Vec)
    requires |c| == 3
    ensures |d| == 3
  {
    match ResIndex(res)
    case Some(i) => c[i := c[i] + 1.0]
    case None => Plus(c, [1.0, 1.0, 1.0])
  }

  /** The counter grows by one for a recognised result and by three otherwise. */
  lemma TallySum(c: Vec, res: string)
    requires |c| == 3
    ensures Sum3(Tally(c, res)) == Sum3(c) + (if ResIndex(res).Some? then 1.0 else 3.0)
    ensures forall i :: 0 <= i < 3 ==> Tally(c, res)[i] >= c[i]
  {
  }

  /** A lost match counts as a win, a draw and a loss at once. */
  lemma LossCountsEverywhere(c: Vec)
    requires |c| == 3
    ensures Tally(c, "L") == [c[0] + 1.0, c[1] + 1.0, c[2] + 1.0]
  {
  }

  /** The result counters over the first `j` entries. */
  function Tallies<V>(es: seq<Entry<V>>, j: nat): (c: Vec)
    requires j <= |es|
    ensures |c| == 3
    ensures Sum3(c) >= j as real
    ensures forall i :: 0 <= i < 3 ==> c[i] >= 0.0
    decreases j
  {
    if j == 0 then Zeros(3)
    else
      var c0 := Tallies(es, j - 1);
      TallySum(c0, es[j - 1].res);
      Tally(c0, es[j - 1].res)
  }

  /** Over results that res_index knows, the counters add up to the number of matches, so
      the frequencies sum to one; a single "L" among them breaks this. */
  lemma {:induction false} TalliesCount<V>(es: seq<Entry<V>>, j: nat)
    requires j <= |es|
    ensures (forall i :: 0 <= i < j ==> ResIndex(es[i].res).Some?) ==> Sum3(Tallies(es, j)) == j as real
    ensures (exists i :: 0 <= i < j && es[i].res == "L") ==> Sum3(Tallies(es, j)) >= j as real + 2.0
    decreases j
  {
    if j > 0 {
      TalliesCount(es, j - 1);
      TallySum(Tallies(es, j - 1), es[j - 1].res);
      if exists i :: 0 <= i < j && es[i].res == "L" {
        var i :| 0 <= i < j && es[i].res == "L";
        if i < j - 1 {
          assert exists i' :: 0 <= i' < j - 1 && es[i'].res == "L";
        }
      }
    }
  }

  // ---------------------------------------------------------------------------------------
  // The team block

  /** The team part of get_from_history: the mean of every entry and the result frequencies,
      then (with a window of `k` games) the sum of the newest `k` entries and their result
      counters, divided by `k`. */
  function TeamBlock(hist: seq<Entry<NVec>>, k: Option<nat>): (b: NVec)
    requires |hist| > 0 && NUniform(StatsOf(hist), Width(TeamTable))
    requires k.Some? ==> 0 < k.value <= |hist|
    ensures |b| == TeamSize(k)
  {
    var n := |hist|;
    var whole := NOver(NTotal(StatsOf(hist), Width(TeamTable), n), n as real)
                 + Lift(Over(Tallies(hist, n), n as real));
    if k.None? then whole
    else
      whole + NOver(NTotal(StatsOf(hist), Width(TeamTable), k.value), k.value as real)
            + Lift(Over(Tallies(hist, k.value), k.value as real))
  }

  /** With exactly `k` entries the window is the whole history, so the trailing block repeats
      the season block. */
  lemma TeamBlockExactWindow(hist: seq<Entry<NVec>>, k: nat)
    requires |hist| == k > 0 && NUniform(StatsOf(hist), Width(TeamTable))
    ensures var b := TeamBlock(hist, Some(k));
            b[..Width(TeamTable) + 3] == b[Width(TeamTable) + 3..]
  {
    var b := TeamBlock(hist, Some(k));
    var whole := NOver(NTotal(StatsOf(hist), Width(TeamTable), k), k as real)
                 + Lift(Over(Tallies(hist, k), k as real));
    assert b == whole + whole;
  }

  /** `k` copies of one vector sum to `k` times that vector. */
  lemma {:induction false} NTotalOfCopies(vs: seq<NVec>, v: Vec, j: nat)
    requires j <= |vs| && NUniform(vs, |v|)
    requires forall i :: 0 <= i < |vs| ==> vs[i] == Lift(v)
    ensures NTotal(vs, |v|, j) == Lift(Scale(v, j as real))
    decreases j
  {
    if j > 0 {
      NTotalOfCopies(vs, v, j - 1);
      var t := NTotal(vs, |v|, j);
      forall i | 0 <= i < |v|
        ensures t[i] == Fin(v[i] * (j as real))
      {
        assert v[i] * ((j - 1) as real) + v[i] == v[i] * (j as real);
      }
    }
  }

  /** The mean of `n` copies of a vector is that vector. */
  lemma MeanOfCopies(vs: seq<NVec>, v: Vec, n: nat)
    requires 0 < n <= |vs| && NUniform(vs, |v|)
    requires forall i :: 0 <= i < |vs| ==> vs[i] == Lift(v)
    ensures NOver(NTotal(vs, |v|, n), n as real) == Lift(v)
  {
    NTotalOfCopies(vs, v, n);
    var t := NTotal(vs, |v|, n);
    MeanOfScaled(t, v, n as real);
  }

  lemma MeanOfScaled(t: NVec, v: Vec, d: real)
    requires d != 0.0 && t == Lift(Scale(v, d))
    ensures NOver(t, d) == Lift(v)
  {
    var mean := NOver(t, d);
    forall i | 0 <= i < |v|
      ensures mean[i] == Fin(v[i])
    {
      MeanEntry(t[i], v[i], d);
    }
  }

  lemma MeanEntry(a: Num, x: real, d: real)
    requires d != 0.0 && a == Fin(x * d)
    ensures (if a.Fin? then Fin(a.x / d) else NaN) == Fin(x)
  {
    DivCancel(x, d);
  }

  lemma DivCancel(x: real, d: real)
    requires d != 0.0
    ensures x * d / d == x
  {
  }

  /** A team that produced the same statistics in every match has exactly those statistics
      as its season mean and as its window mean. */
  lemma TeamMeanOfRepeated(hist: seq<Entry<NVec>>, k: Option<nat>, v: Vec)
    requires |hist| > 0 && |v| == Width(TeamTable)
    requires forall i :: 0 <= i < |hist| ==> hist[i].stats == Lift(v)
    requires k.Some? ==> 0 < k.value <= |hist|
    ensures NUniform(StatsOf(hist), Width(TeamTable))
    ensures TeamBlock(hist, k)[..Width(TeamTable)] == Lift(v)
    ensures k.Some? ==> TeamBlock(hist, k)[Width(TeamTable) + 3..2 * Width(TeamTable) + 3] == Lift(v)
  {
    var w := Width(TeamTable);
    var n := |hist|;
    var vs := StatsOf(hist);
    MeanOfCopies(vs, v, n);
    var whole := NOver(NTotal(vs, w, n), n as real) + Lift(Over(Tallies(hist, n), n as real));
    assert whole[..w] == Lift(v);
    if k.Some? {
      MeanOfCopies(vs, v, k.value);
      var form := NOver(NTotal(vs, w, k.value), k.value as real);
      var rest := form + Lift(Over(Tallies(hist, k.value), k.value as real));
      assert TeamBlock(hist, k) == whole + rest;
      assert rest[..w] == Lift(v);
    }
  }

  // ---------------------------------------------------------------------------------------
  // One player's part

  /** `date >= last_date`: the entry falls in the team's window. */
  predicate InWindow(last: Option<string>, date: string) {
    last.Some? && StrLe(last.value, date)
  }

  /** The window sum `cpstat_form` over the first `j` entries. */
  function FormTotal(es: seq<Entry<Vec>>, w: nat, last: Option<string>, j: nat): (t: Vec)
    requires j <= |es| && Uniform(StatsOf(es), w)
    ensures |t| == w
    decreases j
  {
    if j == 0 then Zeros(w)
    else
      var t0 := FormTotal(es, w, last, j - 1);
      if InWindow(last, es[j - 1].date) then Plus(t0, es[j - 1].stats) else t0
  }

  lemma {:induction false} FormTotalTake(es: seq<Entry<Vec>>, fs: seq<Entry<Vec>>, w: nat, last: Option<string>, j: nat)
    requires j <= |es| && j <= |fs| && Uniform(StatsOf(es), w) && Uniform(StatsOf(fs), w)
    requires es[..j] == fs[..j]
    ensures FormTotal(es, w, last, j) == FormTotal(fs, w, last, j)
    decreases j
  {
    if j > 0 {
      assert es[..j - 1] == es[..j][..j - 1] && fs[..j - 1] == fs[..j][..j - 1];
      assert es[j - 1] == es[..j][j - 1] && fs[j - 1] == fs[..j][j - 1];
      FormTotalTake(es, fs, w, last, j - 1);
    }
  }

  /** The statistics of a prefix are the prefix of the statistics. */
  lemma StatsOfTake<V>(es: seq<Entry<V>>, i: nat)
    requires i <= |es|
    ensures StatsOf(es[..i]) == StatsOf(es)[..i]
  {
  }

  /** The window sum over a prefix one entry longer gains that entry when it is in the
      window. */
  lemma FormTotalExtend(es: seq<Entry<Vec>>, w: nat, last: Option<string>, i: nat)
    requires i < |es| && Uniform(StatsOf(es)[..i + 1], w)
    ensures Uniform(StatsOf(es[..i]), w) && Uniform(StatsOf(es[..i + 1]), w) && |es[i].stats| == w
    ensures FormTotal(es[..i + 1], w, last, i + 1)
            == if InWindow(last, es[i].date) then Plus(FormTotal(es[..i], w, last, i), es[i].stats)
               else FormTotal(es[..i], w, last, i)
  {
    StatsOfTake(es, i);
    StatsOfTake(es, i + 1);
    assert StatsOf(es)[..i + 1][i] == es[i].stats;
    assert es[..i + 1][..i] == es[..i][..i];
    assert es[..i + 1][i] == es[i];
    FormTotalTake(es[..i + 1], es[..i], w, last, i);
  }

  /** The window counters `res_form` over the first `j` entries. */
  function FormTallies(es: seq<Entry<Vec>>, last: Option<string>, j: nat): (c: Vec)
    requires j <= |es|
    ensures |c| == 3
    decreases j
  {
    if j == 0 then Zeros(3)
    else
      var c0 := FormTallies(es, last, j - 1);
      if InWindow(last, es[j - 1].date) then Tally(c0, es[j - 1].res) else c0
  }

  /** A positive minutes total needs an entry, and then the counters are positive too. */
  lemma {:induction false} FormNonEmpty(es: seq<Entry<Vec>>, w: nat, last: Option<string>, j: nat)
    requires j <= |es| && Uniform(StatsOf(es), w) && 12 < w
    ensures FormTotal(es, w, last, j)[12] != 0.0 ==> Sum3(FormTallies(es, last, j)) > 0.0
    ensures forall i :: 0 <= i < 3 ==> FormTallies(es, last, j)[i] >= 0.0
    decreases j
  {
    if j > 0 {
      FormNonEmpty(es, w, last, j - 1);
      if InWindow(last, es[j - 1].date) {
        TallySum(FormTallies(es, last, j - 1), es[j - 1].res);
      }
    }
  }

  /** The per-90 rescaling of a summed player vector. With a positive minutes total
      (entry 12) every entry becomes a rate per 90 minutes, then entry 12 becomes minutes per
      team match and the last entry games per team match; the counters become frequencies. */
  function Per90(v: Vec, res: Vec, played: real): (p: (Vec, Vec))
    requires |v| > 12 && |res| == 3 && played > 0.0
    requires v[12] > 0.0 ==> Sum3(res) > 0.0
    ensures |p.0| == |v| && |p.1| == 3
  {
    if v[12] > 0.0 then
      var s := Scale(Over(v, v[12]), 90.0);
      (s[|v| - 1 := v[|v| - 1] / played][12 := v[12] / played], Over(res, Sum3(res)))
    else (v, res)
  }

  lemma RateOf(x: real, m: real)
    requires m > 0.0
    ensures (x / m * 90.0) * m == x * 90.0
  {
  }

  /** What Per90 promises, stated without its arithmetic: rates times minutes give back
      90 times the total, the two replaced entries times the team's match count give back
      the totals, and the frequencies add up to one. Without minutes nothing changes. */
  lemma Per90Rates(v: Vec, res: Vec, played: real)
    requires |v| > 12 && |res| == 3 && played > 0.0
    requires v[12] > 0.0 ==> Sum3(res) > 0.0
    ensures var p := Per90(v, res, played);
            v[12] > 0.0 ==>
              && (forall i :: 0 <= i < |v| && i != 12 && i != |v| - 1 ==> p.0[i] * v[12] == v[i] * 90.0)
              && p.0[12] * played == v[12]
              && (|v| - 1 != 12 ==> p.0[|v| - 1] * played == v[|v| - 1])
              && Sum3(p.1) == 1.0
    ensures v[12] <= 0.0 ==> Per90(v, res, played) == (v, res)
  {
    if v[12] > 0.0 {
      var p := Per90(v, res, played);
      forall i | 0 <= i < |v| && i != 12 && i != |v| - 1
        ensures p.0[i] * v[12] == v[i] * 90.0
      {
        RateOf(v[i], v[12]);
      }
      var r := Over(res, Sum3(res));
      assert Sum3(r) == (res[0] + res[1] + res[2]) / Sum3(res);
    }
  }

  /** Goalkeeper entry 5 (shots_saved_percent) becomes saved / (saved + conceded) when
      that sum is positive. */
  function SaveRatio(v: Vec): (s: Vec)
    requires |v| > 7
    ensures |s| == |v|
  {
    if v[6] + v[7] > 0.0 then v[5 := v[6] / (v[6] + v[7])] else v
  }

  lemma RatioCancel(a: real, b: real, c: real)
    requires c > 0.0 && a + b > 0.0
    ensures (a * c) / (a * c + b * c) == a / (a + b)
  {
    assert a * c + b * c == (a + b) * c;
    assert (a * c) / ((a + b) * c) == a / (a + b);
  }

  /** The ratio is taken after the per-90 scaling, which leaves it unchanged: it is the
      keeper's saves over saves plus goals conceded, from the raw totals. */
  lemma SaveRatioOfTotals(v: Vec, res: Vec, played: real)
    requires |v| == Width(KeeperTable) && |res| == 3 && played > 0.0
    requires v[12] > 0.0 && Sum3(res) > 0.0 && v[6] + v[7] > 0.0
    ensures SaveRatio(Per90(v, res, played).0)[5] == v[6] / (v[6] + v[7])
  {
    var s := Per90(v, res, played).0;
    var c := 90.0 / v[12];
    assert s[6] == v[6] / v[12] * 90.0 && s[7] == v[7] / v[12] * 90.0;
    assert v[6] / v[12] * 90.0 == v[6] * c;
    assert v[7] / v[12] * 90.0 == v[7] * c;
    RatioCancel(v[6], v[7], c);
  }

  /** One player's contribution: the season sums scaled per 90 with the result frequencies,
      and the window sums likewise. A history entry of the wrong length is numpy's
      broadcasting error; a goalkeeper whose shots_saved_percent is non-zero after scaling
      raises ValueError. */
  function PlayerPart(hist: seq<Entry<Vec>>, keeper: bool, last: Option<string>, played: nat,
                      k: Option<nat>): (r: Result<(Vec, Vec)>)
    requires played > 0 && (last.Some? ==> k.Some? && k.value > 0)
    ensures var w := Width(if keeper then KeeperTable else PlayerTable);
            r.Ok? ==> |r.value.0| == w + 3 && |r.value.1| == w + 3
    ensures r == Err(ShapeMismatch) <==> !Uniform(StatsOf(hist), Width(if keeper then KeeperTable else PlayerTable))
  {
    var w := Width(if keeper then KeeperTable else PlayerTable);
    if !Uniform(StatsOf(hist), w) then Err(ShapeMismatch)
    else
      SumsReady(hist, w, last);
      PlayerFinish(Total(StatsOf(hist), w, |hist|), Tallies(hist, |hist|),
                   FormTotal(hist, w, last, |hist|), FormTallies(hist, last, |hist|), keeper, last, played, k)
  }

  /** The sums are fit for the per-90 scaling: minutes need a match, and a match a result. */
  lemma SumsReady(hist: seq<Entry<Vec>>, w: nat, last: Option<string>)
    requires Uniform(StatsOf(hist), w) && 12 < w
    ensures Total(StatsOf(hist), w, |hist|)[12] > 0.0 ==> Sum3(Tallies(hist, |hist|)) > 0.0
    ensures FormTotal(hist, w, last, |hist|)[12] != 0.0 ==> Sum3(FormTallies(hist, last, |hist|)) > 0.0
  {
    TotalIsColumnSum(StatsOf(hist), w, |hist|, 12);
    ColumnSumSign(StatsOf(hist), 12, |hist|);
    FormNonEmpty(hist, w, last, |hist|);
  }

  /** The statements after a player's history loop: per-90 scaling of both sums, the
      goalkeeper check and save ratio, and the result counters appended. */
  function PlayerFinish(t: Vec, c: Vec, f: Vec, fc: Vec, keeper: bool, last: Option<string>,
                        played: nat, k: Option<nat>): (r: Result<(Vec, Vec)>)
    requires |t| == |f| == Width(if keeper then KeeperTable else PlayerTable) && |c| == |fc| == 3
    requires played > 0 && (last.Some? ==> k.Some? && k.value > 0)
    requires t[12] > 0.0 ==> Sum3(c) > 0.0
    requires f[12] != 0.0 ==> Sum3(fc) > 0.0
    ensures r.Ok? ==> |r.value.0| == |t| + 3 && |r.value.1| == |t| + 3
    ensures r.Err? ==> r.error == ValueError
  {
    var (singl, resT) := Per90(t, c, played as real);
    var (form, resF) := if last.Some? && f[12] > 0.0 then Per90(f, fc, k.value as real) else (f, fc);
    if keeper && singl[5] != 0.0 then Err(ValueError)
    else if keeper then
      Ok((SaveRatio(singl) + resT, (if k.Some? then SaveRatio(form) else form) + resF))
    else Ok((singl + resT, form + resF))
  }

  // ---------------------------------------------------------------------------------------
  // The position groups

  /** The running sums `pstat_res`, `pstat_form` and the count `n_of_players` of one
      (position, first_XI) group. */
  datatype Group = Group(res: Vec, form: Vec, n: nat)
  type Groups = map<(Position, bool), Group>

  /** The `i`-th group of `itertools.product([True, False], ['Goalkeeper', 'Defender',
      'Midfielder', 'Attacker'])`. */
  function GroupAt(i: nat): (Position, bool)
    requires i < 8
  {
    var p := if i % 4 == 0 then Goalkeeper else if i % 4 == 1 then Defender
             else if i % 4 == 2 then Midfielder else Attacker;
    (p, i < 4)
  }

  function GroupWidth(p: Position): (w: nat)
    ensures w == (if p == Goalkeeper then 20 else 25)
  {
    Width(TableFor(p)) + 3
  }

  /** Every group is present, with running sums of its position's length. */
  ghost predicate Shaped(gs: Groups) {
    (forall g: (Position, bool) :: g in gs)
    && forall g :: g in gs ==> |gs[g].res| == GroupWidth(g.0) && |gs[g].form| == GroupWidth(g.0)
  }

  function EmptyGroups(): (gs: Groups)
    ensures Shaped(gs)
  {
    var keys := {(Goalkeeper, true), (Defender, true), (Midfielder, true), (Attacker, true),
                 (Goalkeeper, false), (Defender, false), (Midfielder, false), (Attacker, false)};
    EveryGroupKey(keys);
    map g | g in keys :: Group(Zeros(GroupWidth(g.0)), Zeros(GroupWidth(g.0)), 0)
  }

  lemma EveryGroupKey(keys: set<(Position, bool)>)
    requires keys == {(Goalkeeper, true), (Defender, true), (Midfielder, true), (Attacker, true),
                      (Goalkeeper, false), (Defender, false), (Midfielder, false), (Attacker, false)}
    ensures forall g: (Position, bool) :: g in keys
  {
    forall g: (Position, bool)
      ensures g in keys
    {
      var (p, starter) := g;
      assert starter || !starter;
      match p
      case Goalkeeper =>
        assert g == (Goalkeeper, starter);
      case Defender =>
        assert g == (Defender, starter);
      case Midfielder =>
        assert g == (Midfielder, starter);
      case Attacker =>
        assert g == (Attacker, starter);
    }
  }

  /** The eleven first entries of the lineup are the starters (`[True] * 11 + [False] * 12`). */
  function IsStarter(j: nat): bool {
    j < 11
  }

  /** `pstat_res[(pos, first_XI)] += ...; pstat_form[...] += ...; n_of_players[...] += 1` */
  function AddPlayer(gs: Groups, pos: Position, starter: bool, part: (Vec, Vec)): (hs: Groups)
    requires Shaped(gs)
    requires |part.0| == GroupWidth(pos) && |part.1| == GroupWidth(pos)
    ensures Shaped(hs)
  {
    var g := gs[(pos, starter)];
    gs[(pos, starter) := Group(Plus(g.res, part.0), Plus(g.form, part.1), g.n + 1)]
  }

  /** The read-only inputs of get_from_history besides the lineup. */
  datatype Reading = Reading(ph: PlayerHistory, reg: Registry, team: string, season: int,
                             last: Option<string>, played: nat, k: Option<nat>)

  predicate ReadingOk(rd: Reading) {
    rd.played > 0 && (rd.last.Some? ==> rd.k.Some? && rd.k.value > 0)
  }

  /** The player loop over the first `j` lineup entries (`zip(lineup, ...)` stops at 23). */
  function GroupsUpTo(rd: Reading, lineup: seq<string>, j: nat): (r: Result<Groups>)
    requires ReadingOk(rd) && j <= |lineup| && j <= 23
    ensures r.Ok? ==> Shaped(r.value)
    decreases j, 0
  {
    if j == 0 then Ok(EmptyGroups()) else GroupStepAt(rd, lineup, j - 1)
  }

  /** The loop's pass over name `j`: its position, its history's part, added to its group. */
  function GroupStepAt(rd: Reading, lineup: seq<string>, j: nat): (r: Result<Groups>)
    requires ReadingOk(rd) && j < |lineup| && j < 23
    ensures r.Ok? ==> Shaped(r.value)
    decreases j, 1
  {
    var gs :- GroupsUpTo(rd, lineup, j);
    var pl := lineup[j];
    if (pl, rd.season, rd.team) !in rd.reg.nameToUrl then Err(KeyError)
    else
      var url := rd.reg.nameToUrl[(pl, rd.season, rd.team)];
      if url !in rd.reg.playerPos then Err(KeyError)
      else
        var pos := rd.reg.playerPos[url];
        var part :- PlayerPart(Get(rd.ph, (url, rd.season), []), pos == Goalkeeper, rd.last, rd.played, rd.k);
        Ok(AddPlayer(gs, pos, IsStarter(j), part))
  }

  /** A failed player ends the loop: the error is the loop's. */
  lemma {:induction false} GroupsStop(rd: Reading, lineup: seq<string>, i: nat, k: nat)
    requires ReadingOk(rd) && i <= k <= |lineup| && k <= 23 && GroupsUpTo(rd, lineup, i).Err?
    ensures GroupsUpTo(rd, lineup, k) == GroupsUpTo(rd, lineup, i)
    decreases k
  {
    if k > i {
      GroupsStop(rd, lineup, i, k - 1);
    }
  }

  /** The length of the zip of the lineup with the 23 starter flags. */
  function ZipLength(lineup: seq<string>): nat {
    if |lineup| < 23 then |lineup| else 23
  }

  /** A group's block: its season sums averaged over the players (when there are any), the
      window sums left undivided (the statement that should divide them does nothing), and
      the player count. */
  function Block(g: Group, k: Option<nat>): Vec {
    (if g.n > 0 then Over(g.res, g.n as real) else g.res)
    + (if k.Some? then g.form else [])
    + [g.n as real]
  }

  function GroupSize(p: Position, k: Option<nat>): (n: nat)
    ensures n == (if k.Some? then 2 * GroupWidth(p) else GroupWidth(p)) + 1
  {
    (if k.Some? then 2 * GroupWidth(p) else GroupWidth(p)) + 1
  }

  /** The blocks of the first `i` groups, concatenated in the fixed group order (`combine`). */
  function Blocks(gs: Groups, k: Option<nat>, i: nat): (v: Vec)
    requires Shaped(gs) && i <= 8
    ensures |v| == Sizes(k, i)
    decreases i
  {
    if i == 0 then [] else Blocks(gs, k, i - 1) + Block(gs[GroupAt(i - 1)], k)
  }

  function Sizes(k: Option<nat>, i: nat): nat
    requires i <= 8
    decreases i
  {
    if i == 0 then 0 else Sizes(k, i - 1) + GroupSize(GroupAt(i - 1).0, k)
  }

  function TeamSize(k: Option<nat>): nat {
    if k.Some? then 2 * (Width(TeamTable) + 3) else Width(TeamTable) + 3
  }

  /** The length of get_from_history's vector: 46 team values and 198 player values, or
      twice that for the team and player statistics when a window of `n_games` is read as
      well (FeatureSizeValue adds the blocks up). */
  function FeatureSize(k: Option<nat>): nat {
    if k.Some? then 480 else 244
  }

  lemma SizeStep(k: Option<nat>, i: nat)
    requires i < 8
    ensures Sizes(k, i + 1) == Sizes(k, i) + GroupSize(GroupAt(i).0, k)
  {
  }

  /** The vector is a team block, two goalkeeper blocks and six outfield blocks. */
  lemma FeatureSizeSplit(k: Option<nat>)
    ensures FeatureSize(k) == TeamSize(k) + 2 * GroupSize(Goalkeeper, k) + 6 * GroupSize(Defender, k)
  {
  }

  /** The team block and the eight group blocks make up the whole vector. */
  lemma FeatureSizeValue(k: Option<nat>)
    ensures Sizes(k, 8) == 2 * GroupSize(Goalkeeper, k) + 6 * GroupSize(Defender, k)
    ensures TeamSize(k) + Sizes(k, 8) == FeatureSize(k)
  {
    var a := if k.Some? then 51 else 26;
    var g := if k.Some? then 41 else 21;
    assert Sizes(k, 0) == 0;
    SizeStep(k, 0);
    assert Sizes(k, 1) == g;
    SizeStep(k, 1);
    assert Sizes(k, 2) == a + g;
    SizeStep(k, 2);
    assert Sizes(k, 3) == 2 * a + g;
    SizeStep(k, 3);
    assert Sizes(k, 4) == 3 * a + g;
    SizeStep(k, 4);
    assert Sizes(k, 5) == 3 * a + 2 * g;
    SizeStep(k, 5);
    assert Sizes(k, 6) == 4 * a + 2 * g;
    SizeStep(k, 6);
    assert Sizes(k, 7) == 5 * a + 2 * g;
    SizeStep(k, 7);
  }

  /** `self.n_games`: positive, or None for the season average only. */
  type NGames = k: Option<nat> | k.None? || k.value > 0 witness None

  /** The history is too short to read: no entry, or fewer than `n_games`. */
  predicate TooShort(th: TeamHistory, team: string, season: int, k: Option<nat>) {
    (team, season) !in th || |th[(team, season)]| < (if k.Some? then k.value else 1)
  }

  /** get_from_history: None for a short history, otherwise the team block followed by the
      eight group blocks. */
  function FromHistory(th: TeamHistory, ph: PlayerHistory, k: NGames, reg: Registry,
                       team: string, season: int, lineup: seq<string>): (r: Result<Option<NVec>>)
    ensures r == Ok(None) <==> TooShort(th, team, season, k)
    ensures r.Ok? && r.value.Some? ==> |r.value.value| == FeatureSize(k)
  {
    if TooShort(th, team, season, k) then Ok(None)
    else
      var hist := th[(team, season)];
      if !NUniform(StatsOf(hist), Width(TeamTable)) then Err(ShapeMismatch)
      else
        var last := if k.Some? then Some(hist[k.value - 1].date) else None;
        var rd := Reading(ph, reg, team, season, last, |hist|, k);
        var pv :- PlayerBlocks(rd, lineup);
        Ok(Some(TeamBlock(hist, k) + Lift(pv)))
  }

  /** The player half of get_from_history: the lineup loop, then combine. */
  function PlayerBlocks(rd: Reading, lineup: seq<string>): (r: Result<Vec>)
    requires ReadingOk(rd)
    ensures r.Ok? ==> TeamSize(rd.k) + |r.value| == FeatureSize(rd.k)
  {
    var gs :- GroupsUpTo(rd, lineup, ZipLength(lineup));
    FeatureSizeValue(rd.k);
    Ok(Blocks(gs, rd.k, 8))
  }

  // ---------------------------------------------------------------------------------------
  // add_to_history

  /** `history.insert(0, entry)` on the list of `key`, creating it when absent. */
  function Prepend<K(!new), V>(h: map<K, seq<Entry<V>>>, key: K, e: Entry<V>): (h2: map<K, seq<Entry<V>>>)
    ensures key in h2 && h2[key] == [e] + Get(h, key, [])
    ensures forall k2 :: k2 != key ==> (k2 in h2 <==> k2 in h) && (k2 in h ==> h2[k2] == h[k2])
  {
    h[key := [e] + Get(h, key, [])]
  }

  /** The player loop of add_to_history over the first `j` pairs of `zip(lineup, pstats)`. */
  function PrependPlayers(ph: PlayerHistory, reg: Registry, team: string, season: int,
                          lineup: seq<string>, pstats: seq<Vec>, date: string, res: string,
                          j: nat): (r: Result<PlayerHistory>)
    requires j <= |lineup| && j <= |pstats|
    decreases j
  {
    if j == 0 then Ok(ph)
    else
      var p :- PrependPlayers(ph, reg, team, season, lineup, pstats, date, res, j - 1);
      if (lineup[j - 1], season, team) !in reg.nameToUrl then Err(KeyError)
      else Ok(Prepend(p, (reg.nameToUrl[(lineup[j - 1], season, team)], season),
                      Entry(res, date, pstats[j - 1])))
  }

  lemma {:induction false} PrependPlayersStop(ph: PlayerHistory, reg: Registry, team: string, season: int,
                                              lineup: seq<string>, pstats: seq<Vec>, date: string,
                                              res: string, i: nat, k: nat)
    requires i <= k <= |lineup| && k <= |pstats|
    requires PrependPlayers(ph, reg, team, season, lineup, pstats, date, res, i).Err?
    ensures PrependPlayers(ph, reg, team, season, lineup, pstats, date, res, k)
            == PrependPlayers(ph, reg, team, season, lineup, pstats, date, res, i)
    decreases k
  {
    if k > i {
      PrependPlayersStop(ph, reg, team, season, lineup, pstats, date, res, i, k - 1);
    }
  }

  function Min(a: nat, b: nat): nat {
    if a < b then a else b
  }

  /** add_to_history: the team's entry goes to the front of its list, then each player's. */
  function AddHistory(th: TeamHistory, ph: PlayerHistory, reg: Registry, team: string, season: int,
                      tstats: NVec, pstats: seq<Vec>, lineup: seq<string>, date: string,
                      res: string): Result<(TeamHistory, PlayerHistory)>
  {
    var th2 := Prepend(th, (team, season), Entry(res, date, tstats));
    var ph2 :- PrependPlayers(ph, reg, team, season, lineup, pstats, date, res,
                              Min(|lineup|, |pstats|));
    Ok((th2, ph2))
  }

  /** `a` is `b` with entries of this match put in front. */
  predicate Extends<V(==)>(a: seq<Entry<V>>, b: seq<Entry<V>>, date: string, res: string) {
    |a| >= |b| && a[|a| - |b|..] == b
    && forall i :: 0 <= i < |a| - |b| ==> a[i].date == date && a[i].res == res
  }

  lemma ExtendsFront<V>(e: Entry<V>, b: seq<Entry<V>>, c: seq<Entry<V>>, date: string, res: string)
    requires Extends(b, c, date, res) && e.date == date && e.res == res
    ensures Extends([e] + b, c, date, res)
  {
    var a := [e] + b;
    assert a[|a| - |c|..] == b[|b| - |c|..];
    forall i | 0 <= i < |a| - |c|
      ensures a[i].date == date && a[i].res == res
    {
      if i > 0 {
        assert a[i] == b[i - 1];
      }
    }
  }

  /** Prepending never loses or reorders an old entry: every player history ends with its
      old self, and what was put in front is this match's; other seasons are untouched. */
  lemma {:induction false} PrependPlayersExtends(ph: PlayerHistory, reg: Registry, team: string,
                                                 season: int, lineup: seq<string>, pstats: seq<Vec>,
                                                 date: string, res: string, j: nat)
    requires j <= |lineup| && j <= |pstats|
    requires PrependPlayers(ph, reg, team, season, lineup, pstats, date, res, j).Ok?
    ensures var p := PrependPlayers(ph, reg, team, season, lineup, pstats, date, res, j).value;
            && (forall key :: Extends(Get(p, key, []), Get(ph, key, []), date, res))
            && (forall key: (string, int) :: key.1 != season ==> Get(p, key, []) == Get(ph, key, []))
    decreases j
  {
    if j > 0 {
      PrependPlayersExtends(ph, reg, team, season, lineup, pstats, date, res, j - 1);
      var p0 := PrependPlayers(ph, reg, team, season, lineup, pstats, date, res, j - 1).value;
      var hk := (reg.nameToUrl[(lineup[j - 1], season, team)], season);
      PrependExtends(p0, ph, hk, Entry(res, date, pstats[j - 1]), date, res);
    }
  }

  /** One prepend keeps every list an extension of the original ones and touches only its
      own key. */
  lemma PrependExtends(p0: PlayerHistory, ph: PlayerHistory, hk: (string, int), e: Entry<Vec>,
                          date: string, res: string)
    requires e.date == date && e.res == res
    requires forall key :: Extends(Get(p0, key, []), Get(ph, key, []), date, res)
    requires forall key: (string, int) :: key.1 != hk.1 ==> Get(p0, key, []) == Get(ph, key, [])
    ensures forall key :: Extends(Get(Prepend(p0, hk, e), key, []), Get(ph, key, []), date, res)
    ensures forall key: (string, int) :: key.1 != hk.1 ==> Get(Prepend(p0, hk, e), key, []) == Get(ph, key, [])
  {
    var p := Prepend(p0, hk, e);
    forall key
      ensures Extends(Get(p, key, []), Get(ph, key, []), date, res)
    {
      var b, c := Get(p0, key, []), Get(ph, key, []);
      assert Extends(b, c, date, res);
      if key == hk {
        ExtendsFront(e, b, c, date, res);
      } else {
        assert Get(p, key, []) == b;
      }
    }
  }

  /** The team's own list after add_to_history: the new entry, then the old list. */
  lemma AddHistoryFront(th: TeamHistory, ph: PlayerHistory, reg: Registry, team: string, season: int,
                        tstats: NVec, pstats: seq<Vec>, lineup: seq<string>, date: string, res: string)
    requires AddHistory(th, ph, reg, team, season, tstats, pstats, lineup, date, res).Ok?
    ensures var (th2, ph2) := AddHistory(th, ph, reg, team, season, tstats, pstats, lineup, date, res).value;
            && th2[(team, season)] == [Entry(res, date, tstats)] + Get(th, (team, season), [])
            && (forall key :: key != (team, season) ==> Get(th2, key, []) == Get(th, key, []))
            && (forall key :: Extends(Get(ph2, key, []), Get(ph, key, []), date, res))
  {
    PrependPlayersExtends(ph, reg, team, season, lineup, pstats, date, res, Min(|lineup|, |pstats|));
  }
}
