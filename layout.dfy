/** The column list DatabaseBuilder.fit builds (database_build.py:683-737), described by the
    runs of columns it is made of rather than by formatted names, and the order in which
    transform's rows hold their values (get_from_history twice, then the result). */
module Layout {
  import opened Common
  import opened Schema
  import opened Vectors
  import opened History

  datatype Who = TeamWho | PlayerWho(pos: Position)

  /** `total` (or no form suffix when `n_games` is None) and `last_{n_games}`. */
  datatype Window = Season | Last

  /** A run of consecutive columns: one column per statistic of `who`, the three result
      columns (wins, draws, lost), a player count, or a label column. Team runs carry
      `starter == true`: their names have no `sub` part. */
  datatype Segment =
    | Stats(side: Side, who: Who, starter: bool, window: Window)
    | Results(side: Side, who: Who, starter: bool, window: Window)
    | Count(side: Side, who: Who, starter: bool)
    | Label(name: string)

  function WidthOf(who: Who): nat {
    match who
    case TeamWho => Width(TeamTable)
    case PlayerWho(p) => Width(TableFor(p))
  }

  function SegmentWidth(sg: Segment): nat {
    match sg
    case Stats(_, who, _, _) => WidthOf(who)
    case Results(_, _, _, _) => 3
    case Count(_, _, _) => 1
    case Label(_) => 1
  }

  /** The number of columns of a layout. */
  function ColumnCount(sgs: seq<Segment>): nat
    decreases |sgs|
  {
    if sgs == [] then 0 else SegmentWidth(sgs[0]) + ColumnCount(sgs[1..])
  }

  lemma {:induction false} ColumnCountAppend(a: seq<Segment>, b: seq<Segment>)
    ensures ColumnCount(a + b) == ColumnCount(a) + ColumnCount(b)
    decreases |a|
  {
    if a == [] {
      assert a + b == b;
    } else {
      assert (a + b)[0] == a[0];
      assert (a + b)[1..] == a[1..] + b;
      ColumnCountAppend(a[1..], b);
    }
  }

  /** The condition under which fit emits a group's three result columns. As written it is
      `pos != "Team" or not first_XI`, which puts the team's result columns in the
      substitutes' pass; the corrected rule keeps them with the team's statistics. */
  predicate ResRule(who: Who, starter: bool, corrected: bool) {
    if corrected then who != TeamWho || starter else who != TeamWho || !starter
  }

  /** The columns of one `form` iteration for (where, first_XI, pos). */
  function FitForm(side: Side, starter: bool, who: Who, w: Window, corrected: bool): seq<Segment> {
    var tag := who == TeamWho || starter;
    (if starter || who != TeamWho then [Stats(side, who, tag, w)] else [])
    + (if ResRule(who, starter, corrected) then [Results(side, who, tag, w)] else [])
  }

  /** `for form in form_tab`: the season columns, then (with `n_games`) the window's. */
  function FitForms(side: Side, starter: bool, who: Who, k: Option<nat>, corrected: bool): seq<Segment> {
    FitForm(side, starter, who, Season, corrected)
    + (if k.Some? then FitForm(side, starter, who, Last, corrected) else [])
  }

  /** One (where, first_XI, pos) iteration: its forms, then the player count. */
  function FitGroup(side: Side, starter: bool, who: Who, k: Option<nat>, corrected: bool): seq<Segment> {
    FitForms(side, starter, who, k, corrected)
    + (if who != TeamWho then [Count(side, who, starter)] else [])
  }

  /** The five positions of one first_XI pass. */
  function FitPass(side: Side, starter: bool, k: Option<nat>, corrected: bool): seq<Segment> {
    FitGroup(side, starter, TeamWho, k, corrected)
    + FitGroup(side, starter, PlayerWho(Goalkeeper), k, corrected)
    + FitGroup(side, starter, PlayerWho(Defender), k, corrected)
    + FitGroup(side, starter, PlayerWho(Midfielder), k, corrected)
    + FitGroup(side, starter, PlayerWho(Attacker), k, corrected)
  }

  function Labels(exact: bool): seq<Segment> {
    if exact then [Label("home_goals"), Label("away_goals")] else [Label("result")]
  }

  /** `itertools.product(["home", "away"], [True, False], [...])` then the label columns. */
  function FitColumnsWith(k: Option<nat>, exact: bool, corrected: bool): seq<Segment> {
    FitPass(Home, true, k, corrected) + FitPass(Home, false, k, corrected)
    + FitPass(Away, true, k, corrected) + FitPass(Away, false, k, corrected)
    + Labels(exact)
  }

  /** `self.columns_` as fit builds it. */
  function FitColumns(k: Option<nat>, exact: bool): seq<Segment> {
    FitColumnsWith(k, exact, false)
  }

  /** `self.columns_` with the team result columns kept beside the team statistics. */
  function CorrectedColumns(k: Option<nat>, exact: bool): seq<Segment> {
    FitColumnsWith(k, exact, true)
  }

  // ---------------------------------------------------------------------------------------
  // What transform's rows hold

  /** A window's statistics then its result frequencies. */
  function Chunk(side: Side, who: Who, starter: bool, w: Window): seq<Segment> {
    [Stats(side, who, starter, w), Results(side, who, starter, w)]
  }

  /** The team block of get_from_history. */
  function TeamLayout(side: Side, k: Option<nat>): seq<Segment> {
    Chunk(side, TeamWho, true, Season) + (if k.Some? then Chunk(side, TeamWho, true, Last) else [])
  }

  /** One group's block: season part, window part, player count. */
  function GroupLayout(side: Side, g: (Position, bool), k: Option<nat>): seq<Segment> {
    Chunk(side, PlayerWho(g.0), g.1, Season)
    + (if k.Some? then Chunk(side, PlayerWho(g.0), g.1, Last) else [])
    + [Count(side, PlayerWho(g.0), g.1)]
  }

  /** What get_from_history returns for one side, block by block: the team block, then the
      eight groups in `GroupAt` order. */
  function HistoryLayout(side: Side, k: Option<nat>): seq<Segment> {
    TeamLayout(side, k)
    + GroupLayout(side, (Goalkeeper, true), k) + GroupLayout(side, (Defender, true), k)
    + GroupLayout(side, (Midfielder, true), k) + GroupLayout(side, (Attacker, true), k)
    + GroupLayout(side, (Goalkeeper, false), k) + GroupLayout(side, (Defender, false), k)
    + GroupLayout(side, (Midfielder, false), k) + GroupLayout(side, (Attacker, false), k)
  }

  /** What `np.concatenate((homestats, awaystats, result))` holds, block by block. */
  function RowLayout(k: Option<nat>, exact: bool): seq<Segment> {
    HistoryLayout(Home, k) + HistoryLayout(Away, k) + Labels(exact)
  }

  lemma ColumnCountOne(x: Segment)
    ensures ColumnCount([x]) == SegmentWidth(x)
  {
    assert [x][1..] == [];
  }

  /** Each piece of fit's list is, with the corrected rule, the matching block of
      get_from_history. */
  lemma PlayerGroupMatches(side: Side, starter: bool, p: Position, k: Option<nat>, corrected: bool)
    ensures FitGroup(side, starter, PlayerWho(p), k, corrected) == GroupLayout(side, (p, starter), k)
  {
  }

  lemma TeamGroups(side: Side, k: Option<nat>)
    ensures FitGroup(side, true, TeamWho, k, true) == TeamLayout(side, k)
    ensures FitGroup(side, false, TeamWho, k, true) == []
    ensures FitGroup(side, true, TeamWho, k, false)
            == [Stats(side, TeamWho, true, Season)] + (if k.Some? then [Stats(side, TeamWho, true, Last)] else [])
    ensures FitGroup(side, false, TeamWho, k, false)
            == [Results(side, TeamWho, true, Season)] + (if k.Some? then [Results(side, TeamWho, true, Last)] else [])
  {
  }

  /** One side of the corrected fit is exactly get_from_history's vector for that side. */
  lemma CorrectedSide(side: Side, k: Option<nat>)
    ensures FitPass(side, true, k, true) + FitPass(side, false, k, true) == HistoryLayout(side, k)
  {
    TeamGroups(side, k);
    var t := TeamLayout(side, k);
    var g1, g2 := GroupLayout(side, (Goalkeeper, true), k), GroupLayout(side, (Defender, true), k);
    var g3, g4 := GroupLayout(side, (Midfielder, true), k), GroupLayout(side, (Attacker, true), k);
    var g5, g6 := GroupLayout(side, (Goalkeeper, false), k), GroupLayout(side, (Defender, false), k);
    var g7, g8 := GroupLayout(side, (Midfielder, false), k), GroupLayout(side, (Attacker, false), k);
    PlayerGroupMatches(side, true, Goalkeeper, k, true);
    PlayerGroupMatches(side, true, Defender, k, true);
    PlayerGroupMatches(side, true, Midfielder, k, true);
    PlayerGroupMatches(side, true, Attacker, k, true);
    PlayerGroupMatches(side, false, Goalkeeper, k, true);
    PlayerGroupMatches(side, false, Defender, k, true);
    PlayerGroupMatches(side, false, Midfielder, k, true);
    PlayerGroupMatches(side, false, Attacker, k, true);
    assert FitPass(side, true, k, true) == t + g1 + g2 + g3 + g4;
    assert FitPass(side, false, k, true) == [] + g5 + g6 + g7 + g8;
    Regroup(t + g1 + g2 + g3 + g4, g5, g6, g7, g8);
  }

  lemma Regroup(x: seq<Segment>, a: seq<Segment>, b: seq<Segment>, c: seq<Segment>, d: seq<Segment>)
    ensures x + ([] + a + b + c + d) == x + a + b + c + d
  {
    assert [] + a == a;
    calc {
      x + (a + b + c + d);
      (x + (a + b + c)) + d;
      ((x + (a + b)) + c) + d;
      x + a + b + c + d;
    }
  }

  /** The corrected column list names every value of transform's rows, in order. */
  lemma CorrectedColumnsAligned(k: Option<nat>, exact: bool)
    ensures CorrectedColumns(k, exact) == RowLayout(k, exact)
  {
    CorrectedSide(Home, k);
    CorrectedSide(Away, k);
    var h1, h2 := FitPass(Home, true, k, true), FitPass(Home, false, k, true);
    var a1, a2 := FitPass(Away, true, k, true), FitPass(Away, false, k, true);
    Pair(h1, h2, a1, a2, Labels(exact));
  }

  lemma Pair(a: seq<Segment>, b: seq<Segment>, c: seq<Segment>, d: seq<Segment>, e: seq<Segment>)
    ensures a + b + c + d + e == (a + b) + (c + d) + e
  {
  }

  // ---------------------------------------------------------------------------------------
  // Counting columns

  lemma Count5(a: seq<Segment>, b: seq<Segment>, c: seq<Segment>, d: seq<Segment>, e: seq<Segment>)
    ensures ColumnCount(a + b + c + d + e)
            == ColumnCount(a) + ColumnCount(b) + ColumnCount(c) + ColumnCount(d) + ColumnCount(e)
  {
    ColumnCountAppend(a, b);
    ColumnCountAppend(a + b, c);
    ColumnCountAppend(a + b + c, d);
    ColumnCountAppend(a + b + c + d, e);
  }

  lemma ChunkCount(side: Side, who: Who, starter: bool, w: Window)
    ensures ColumnCount(Chunk(side, who, starter, w)) == WidthOf(who) + 3
  {
    var x, y := Stats(side, who, starter, w), Results(side, who, starter, w);
    assert Chunk(side, who, starter, w) == [x] + [y];
    ColumnCountAppend([x], [y]);
    ColumnCountOne(x);
    ColumnCountOne(y);
  }

  lemma GroupLayoutCount(side: Side, g: (Position, bool), k: Option<nat>)
    ensures ColumnCount(GroupLayout(side, g, k)) == GroupSize(g.0, k)
  {
    var c := Chunk(side, PlayerWho(g.0), g.1, Season);
    var l := if k.Some? then Chunk(side, PlayerWho(g.0), g.1, Last) else [];
    var n := [Count(side, PlayerWho(g.0), g.1)];
    ChunkCount(side, PlayerWho(g.0), g.1, Season);
    ChunkCount(side, PlayerWho(g.0), g.1, Last);
    ColumnCountOne(n[0]);
    ColumnCountAppend(c, l);
    ColumnCountAppend(c + l, n);
  }

  lemma TeamLayoutCount(side: Side, k: Option<nat>)
    ensures ColumnCount(TeamLayout(side, k)) == TeamSize(k)
  {
    var c := Chunk(side, TeamWho, true, Season);
    var l := if k.Some? then Chunk(side, TeamWho, true, Last) else [];
    ChunkCount(side, TeamWho, true, Season);
    ChunkCount(side, TeamWho, true, Last);
    ColumnCountAppend(c, l);
  }

  /** The layout accounts for every value get_from_history returns. */
  lemma HistoryLayoutCount(side: Side, k: Option<nat>)
    ensures ColumnCount(HistoryLayout(side, k)) == FeatureSize(k)
  {
    FeatureSizeSplit(k);
    TeamLayoutCount(side, k);
    var t := TeamLayout(side, k);
    var g1, g2 := GroupLayout(side, (Goalkeeper, true), k), GroupLayout(side, (Defender, true), k);
    var g3, g4 := GroupLayout(side, (Midfielder, true), k), GroupLayout(side, (Attacker, true), k);
    var g5, g6 := GroupLayout(side, (Goalkeeper, false), k), GroupLayout(side, (Defender, false), k);
    var g7, g8 := GroupLayout(side, (Midfielder, false), k), GroupLayout(side, (Attacker, false), k);
    GroupLayoutCount(side, (Goalkeeper, true), k);
    GroupLayoutCount(side, (Defender, true), k);
    GroupLayoutCount(side, (Midfielder, true), k);
    GroupLayoutCount(side, (Attacker, true), k);
    GroupLayoutCount(side, (Goalkeeper, false), k);
    GroupLayoutCount(side, (Defender, false), k);
    GroupLayoutCount(side, (Midfielder, false), k);
    GroupLayoutCount(side, (Attacker, false), k);
    Count5(t, g1, g2, g3, g4);
    Count5(t + g1 + g2 + g3 + g4, g5, g6, g7, g8);
  }

  /** Transform's rows and the corrected column list have the same length: two feature
      vectors and the label columns. */
  lemma RowLayoutCount(k: Option<nat>, exact: bool)
    ensures ColumnCount(RowLayout(k, exact)) == 2 * FeatureSize(k) + (if exact then 2 else 1)
  {
    HistoryLayoutCount(Home, k);
    HistoryLayoutCount(Away, k);
    ColumnCountAppend(HistoryLayout(Home, k), HistoryLayout(Away, k));
    ColumnCountAppend(HistoryLayout(Home, k) + HistoryLayout(Away, k), Labels(exact));
    if exact {
      assert Labels(exact) == [Label("home_goals")] + [Label("away_goals")];
      ColumnCountAppend([Label("home_goals")], [Label("away_goals")]);
      ColumnCountOne(Label("home_goals"));
      ColumnCountOne(Label("away_goals"));
    } else {
      ColumnCountOne(Label("result"));
    }
  }

  /** Moving the team's result columns from one pass to the other keeps a side's count. */
  lemma SideCount(side: Side, k: Option<nat>)
    ensures ColumnCount(FitPass(side, true, k, false) + FitPass(side, false, k, false))
            == ColumnCount(HistoryLayout(side, k))
  {
    CorrectedSide(side, k);
    var p1, p2 := FitPass(side, true, k, false), FitPass(side, false, k, false);
    var q1, q2 := FitPass(side, true, k, true), FitPass(side, false, k, true);
    ColumnCountAppend(p1, p2);
    ColumnCountAppend(q1, q2);
    PassCount(side, k);
  }

  lemma PassCount(side: Side, k: Option<nat>)
    ensures ColumnCount(FitPass(side, true, k, false)) + ColumnCount(FitPass(side, false, k, false))
            == ColumnCount(FitPass(side, true, k, true)) + ColumnCount(FitPass(side, false, k, true))
  {
    PassSplit(side, true, k, false);
    PassSplit(side, false, k, false);
    PassSplit(side, true, k, true);
    PassSplit(side, false, k, true);
    var p1, p2 := PlayerGroups(side, true, k), PlayerGroups(side, false, k);
    ColumnCountAppend(FitGroup(side, true, TeamWho, k, false), p1);
    ColumnCountAppend(FitGroup(side, false, TeamWho, k, false), p2);
    ColumnCountAppend(FitGroup(side, true, TeamWho, k, true), p1);
    ColumnCountAppend(FitGroup(side, false, TeamWho, k, true), p2);
    TeamGroups(side, k);
    TeamCounts(side, k);
  }

  /** The four player groups of one pass, which do not depend on the result rule. */
  function PlayerGroups(side: Side, starter: bool, k: Option<nat>): seq<Segment> {
    GroupLayout(side, (Goalkeeper, starter), k) + GroupLayout(side, (Defender, starter), k)
    + GroupLayout(side, (Midfielder, starter), k) + GroupLayout(side, (Attacker, starter), k)
  }

  lemma PassSplit(side: Side, starter: bool, k: Option<nat>, corrected: bool)
    ensures FitPass(side, starter, k, corrected)
            == FitGroup(side, starter, TeamWho, k, corrected) + PlayerGroups(side, starter, k)
  {
    PlayerGroupMatches(side, starter, Goalkeeper, k, corrected);
    PlayerGroupMatches(side, starter, Defender, k, corrected);
    PlayerGroupMatches(side, starter, Midfielder, k, corrected);
    PlayerGroupMatches(side, starter, Attacker, k, corrected);
    Front(FitGroup(side, starter, TeamWho, k, corrected),
          GroupLayout(side, (Goalkeeper, starter), k), GroupLayout(side, (Defender, starter), k),
          GroupLayout(side, (Midfielder, starter), k), GroupLayout(side, (Attacker, starter), k));
  }

  lemma Front(a: seq<Segment>, b: seq<Segment>, c: seq<Segment>, d: seq<Segment>, e: seq<Segment>)
    ensures a + b + c + d + e == a + (b + c + d + e)
  {
  }

  /** The first two entries of a list survive appending anything. */
  lemma FirstTwo(a: seq<Segment>, b: seq<Segment>)
    requires |a| >= 2
    ensures |a + b| >= 2 && (a + b)[0] == a[0] && (a + b)[1] == a[1]
  {
  }

  lemma TeamCounts(side: Side, k: Option<nat>)
    ensures ColumnCount(FitGroup(side, true, TeamWho, k, false)) + ColumnCount(FitGroup(side, false, TeamWho, k, false))
            == ColumnCount(FitGroup(side, true, TeamWho, k, true))
  {
    TeamGroups(side, k);
    TeamLayoutCount(side, k);
    var s1, r1 := Stats(side, TeamWho, true, Season), Results(side, TeamWho, true, Season);
    var s2, r2 := Stats(side, TeamWho, true, Last), Results(side, TeamWho, true, Last);
    ColumnCountOne(s1);
    ColumnCountOne(s2);
    ColumnCountOne(r1);
    ColumnCountOne(r2);
    ColumnCountAppend([s1], if k.Some? then [s2] else []);
    ColumnCountAppend([r1], if k.Some? then [r2] else []);
  }

  /** Fit's list, as written, has as many columns as transform's rows have values. */
  lemma FitColumnsCount(k: Option<nat>, exact: bool)
    ensures ColumnCount(FitColumns(k, exact)) == ColumnCount(RowLayout(k, exact))
  {
    SideCount(Home, k);
    SideCount(Away, k);
    var h1, h2 := FitPass(Home, true, k, false), FitPass(Home, false, k, false);
    var a1, a2 := FitPass(Away, true, k, false), FitPass(Away, false, k, false);
    Pair(h1, h2, a1, a2, Labels(exact));
    ColumnCountAppend(h1 + h2, a1 + a2);
    ColumnCountAppend((h1 + h2) + (a1 + a2), Labels(exact));
    ColumnCountAppend(HistoryLayout(Home, k), HistoryLayout(Away, k));
    ColumnCountAppend(HistoryLayout(Home, k) + HistoryLayout(Away, k), Labels(exact));
  }

  /** A list whose first two entries are `a` and `b`. */
  predicate Opens(cs: seq<Segment>, a: Segment, b: Segment) {
    |cs| >= 2 && cs[0] == a && cs[1] == b
  }

  /** The first two entries of a list survive appending anything. */
  lemma OpensAppend(cs: seq<Segment>, ds: seq<Segment>, a: Segment, b: Segment)
    requires Opens(cs, a, b)
    ensures Opens(cs + ds, a, b)
  {
  }

  /** What fit, as written, names the second column: a window of team statistics with
      `n_games`, the goalkeepers' statistics without. */
  function FitSecond(k: Option<nat>): Segment {
    if k.Some? then Stats(Home, TeamWho, true, Last) else Stats(Home, PlayerWho(Goalkeeper), true, Season)
  }

  /** As written, fit moves the team's result columns behind the starters' groups. The
      home team's statistics open both lists, but next transform's rows hold the team's
      result frequencies while the column names go on with a window of team statistics
      (with `n_games`) or with the goalkeepers' statistics (without). The counts agree
      (FitColumnsCount), so pandas takes the rows under the wrong names. */
  lemma FitColumnsMisaligned(k: Option<nat>, exact: bool)
    ensures Opens(FitColumns(k, exact), Stats(Home, TeamWho, true, Season), FitSecond(k))
    ensures Opens(RowLayout(k, exact), Stats(Home, TeamWho, true, Season), Results(Home, TeamWho, true, Season))
    ensures FitColumns(k, exact) != RowLayout(k, exact)
  {
    FitHead(k, exact);
    RowHead(k, exact);
    SecondDiffers(k);
    OpensDiffer(FitColumns(k, exact), RowLayout(k, exact), Stats(Home, TeamWho, true, Season),
                FitSecond(k), Results(Home, TeamWho, true, Season));
  }

  /** Fit's second column is never the team's result frequencies. */
  lemma SecondDiffers(k: Option<nat>)
    ensures FitSecond(k) != Results(Home, TeamWho, true, Season)
  {
  }

  /** Two lists that open with the same segment and then differ are different lists. */
  lemma OpensDiffer(cs: seq<Segment>, ds: seq<Segment>, a: Segment, b: Segment, c: Segment)
    requires Opens(cs, a, b) && Opens(ds, a, c) && b != c
    ensures cs != ds
  {
    assert cs[1] != ds[1];
  }

  lemma FitHead(k: Option<nat>, exact: bool)
    ensures Opens(FitColumns(k, exact), Stats(Home, TeamWho, true, Season), FitSecond(k))
  {
    var h1, h2 := FitPass(Home, true, k, false), FitPass(Home, false, k, false);
    var a1, a2 := FitPass(Away, true, k, false), FitPass(Away, false, k, false);
    assert FitColumns(k, exact) == h1 + (h2 + a1 + a2 + Labels(exact)) by {
      Front(h1, h2, a1, a2, Labels(exact));
    }
    PassHead(k);
    OpensAppend(h1, h2 + a1 + a2 + Labels(exact), Stats(Home, TeamWho, true, Season), FitSecond(k));
  }

  /** The home starters' pass of fit, as written, opens with the team statistics and then
      either the window's team statistics or the goalkeepers' statistics. */
  lemma PassHead(k: Option<nat>)
    ensures Opens(FitPass(Home, true, k, false), Stats(Home, TeamWho, true, Season), FitSecond(k))
  {
    TeamGroups(Home, k);
    PassSplit(Home, true, k, false);
    var ts := FitGroup(Home, true, TeamWho, k, false);
    var g1, g2 := GroupLayout(Home, (Goalkeeper, true), k), GroupLayout(Home, (Defender, true), k);
    var g3, g4 := GroupLayout(Home, (Midfielder, true), k), GroupLayout(Home, (Attacker, true), k);
    Front3(g1, g2, g3, g4);
    assert |g1| >= 2 && g1[0] == Stats(Home, PlayerWho(Goalkeeper), true, Season);
    FirstTwo(g1, g2 + g3 + g4);
  }

  lemma Front3(a: seq<Segment>, b: seq<Segment>, c: seq<Segment>, d: seq<Segment>)
    ensures a + b + c + d == a + (b + c + d)
  {
  }

  lemma RowHead(k: Option<nat>, exact: bool)
    ensures Opens(RowLayout(k, exact), Stats(Home, TeamWho, true, Season), Results(Home, TeamWho, true, Season))
  {
    var a, b := Stats(Home, TeamWho, true, Season), Results(Home, TeamWho, true, Season);
    var t := TeamLayout(Home, k);
    assert Opens(t, a, b);
    var x := t;
    OpensAppend(x, GroupLayout(Home, (Goalkeeper, true), k), a, b);
    x := x + GroupLayout(Home, (Goalkeeper, true), k);
    OpensAppend(x, GroupLayout(Home, (Defender, true), k), a, b);
    x := x + GroupLayout(Home, (Defender, true), k);
    OpensAppend(x, GroupLayout(Home, (Midfielder, true), k), a, b);
    x := x + GroupLayout(Home, (Midfielder, true), k);
    OpensAppend(x, GroupLayout(Home, (Attacker, true), k), a, b);
    x := x + GroupLayout(Home, (Attacker, true), k);
    OpensAppend(x, GroupLayout(Home, (Goalkeeper, false), k), a, b);
    x := x + GroupLayout(Home, (Goalkeeper, false), k);
    OpensAppend(x, GroupLayout(Home, (Defender, false), k), a, b);
    x := x + GroupLayout(Home, (Defender, false), k);
    OpensAppend(x, GroupLayout(Home, (Midfielder, false), k), a, b);
    x := x + GroupLayout(Home, (Midfielder, false), k);
    OpensAppend(x, GroupLayout(Home, (Attacker, false), k), a, b);
    x := x + GroupLayout(Home, (Attacker, false), k);
    OpensAppend(x, HistoryLayout(Away, k), a, b);
    OpensAppend(x + HistoryLayout(Away, k), Labels(exact), a, b);
  }
}
