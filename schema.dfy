/** The column schedules of the three per-round tables (teams, players, goalkeepers) and the
    small lookup dictionaries the event dispatch uses (database_build.py:22-114). */
module Schema {
  import opened Common

  datatype Side = Home | Away

  datatype Position = Goalkeeper | Defender | Midfielder | Attacker

  /** The shot-location buckets that LOCATIONS_DICT maps location codes onto. */
  datatype Bucket = Middle | Difficult | Easy | Wing | SmallerBoxSide | BoxSide

  /** The shot situations of SITUATIONS_DICT. */
  datatype Situation = OpenPlay | SetPiece | Corner | FreeKick

  /** One counter column. `GoalScoredAt(Home)` is the column "goal_scored_home",
      `Made(Corner)` is "Corner_made", `ShotConceded(Wing)` is "shot_conceded_wing". */
  datatype Stat =
    | GamesPlayed | GamesPlayedAt(side: Side)
    | GoalScored | GoalScoredAt(side: Side)
    | GoalConceded | GoalConcededAt(side: Side)
    | OwnGoals | AttemptsShots | ShotsOnTarget | Fouls
    | FreeKicksWon | FreeKicksConceded | CornersWon | CornersConceded
    | PenaltiesWon | PenaltiesConceded | Offsides | YellowCards | RedCards | Substitutions
    | Made(situation: Situation) | Conceded(situation: Situation)
    | ShotMade(bucket: Bucket) | ShotConceded(bucket: Bucket)
    | SecondYellowCard | StraightRedCard | KeyPasses | TimePlayed | SubsIn | SubsOut
    | HandBall | OffsidePass | HasInjured | DaysWithoutInjury | HasPlayed
    | ShotsSavedPercent | ShotsSaved

  datatype TableId = TeamTable | PlayerTable | KeeperTable

  /** The counter columns of `teams`, in order (t_cols without its four key columns). */
  function TeamColumns(): seq<Stat> {
    [GamesPlayed, GamesPlayedAt(Home), GamesPlayedAt(Away),
     GoalScored, GoalScoredAt(Home), GoalScoredAt(Away),
     GoalConceded, GoalConcededAt(Home), GoalConcededAt(Away),
     OwnGoals, AttemptsShots, ShotsOnTarget,
     Fouls, FreeKicksWon, FreeKicksConceded, CornersWon,
     CornersConceded, PenaltiesWon, PenaltiesConceded,
     Offsides, YellowCards, RedCards,
     Substitutions, Made(OpenPlay), Conceded(OpenPlay), Made(SetPiece), Conceded(SetPiece),
     Made(Corner), Conceded(Corner), Made(FreeKick), Conceded(FreeKick),
     ShotMade(Middle), ShotConceded(Middle),
     ShotMade(Difficult), ShotConceded(Difficult), ShotMade(Easy), ShotConceded(Easy),
     ShotMade(Wing), ShotConceded(Wing),
     ShotMade(SmallerBoxSide), ShotConceded(SmallerBoxSide),
     ShotMade(BoxSide), ShotConceded(BoxSide)]
  }

  /** The counter columns of `players`, in order (p_cols without its six key columns). */
  function PlayerColumns(): seq<Stat> {
    [GoalScored, GoalScoredAt(Home), GoalScoredAt(Away),
     AttemptsShots, CornersConceded, Fouls,
     YellowCards, SecondYellowCard, StraightRedCard,
     FreeKicksWon, Offsides, KeyPasses,
     TimePlayed, SubsIn, SubsOut,
     HandBall, OffsidePass, HasInjured,
     OwnGoals, ShotsOnTarget, DaysWithoutInjury, HasPlayed]
  }

  /** The counter columns of `goalkeepers`, in order (g_cols without its six key columns). */
  function KeeperColumns(): seq<Stat> {
    [Fouls, YellowCards,
     SecondYellowCard, StraightRedCard,
     HasInjured, ShotsSavedPercent,
     ShotsSaved, GoalConceded, GoalConcededAt(Home),
     GoalConcededAt(Away), SubsIn, SubsOut,
     TimePlayed, ShotsOnTarget, OwnGoals, DaysWithoutInjury, HasPlayed]
  }

  function Columns(t: TableId): seq<Stat> {
    match t
    case TeamTable => TeamColumns()
    case PlayerTable => PlayerColumns()
    case KeeperTable => KeeperColumns()
  }

  function ColumnSet(t: TableId): set<Stat> {
    set c | c in Columns(t)
  }

  /** A column at a known position of its table is one of the table's columns. */
  lemma ColumnAt(t: TableId, i: nat, c: Stat)
    requires i < |Columns(t)| && Columns(t)[i] == c
    ensures c in ColumnSet(t)
  {
  }

  /** The table a player's rows live in: goalkeepers have their own. */
  function TableFor(p: Position): TableId {
    if p == Goalkeeper then KeeperTable else PlayerTable
  }

  /** TEAM_STAT_NUMBER, PLAYER_STAT_NUMBER, GOALKEEPER_STAT_NUMBER, and the positions in the
      player and goalkeeper vectors that the feature builder addresses by number. */
  lemma ColumnFacts()
    ensures |TeamColumns()| == 43 && |PlayerColumns()| == 22 && |KeeperColumns()| == 17
    ensures PlayerColumns()[12] == TimePlayed && KeeperColumns()[12] == TimePlayed
    ensures PlayerColumns()[21] == HasPlayed && KeeperColumns()[16] == HasPlayed
    ensures KeeperColumns()[5] == ShotsSavedPercent && KeeperColumns()[6] == ShotsSaved
    ensures KeeperColumns()[7] == GoalConceded
  {
  }

  /** Where keeper_update's columns sit in the goalkeeper vector. */
  lemma KeeperCreditAt()
    ensures |KeeperColumns()| == 17 && KeeperColumns()[6] == ShotsSaved && KeeperColumns()[7] == GoalConceded
    ensures KeeperColumns()[8] == GoalConcededAt(Home) && KeeperColumns()[9] == GoalConcededAt(Away)
    ensures KeeperColumns()[13] == ShotsOnTarget
  {
  }

  /** `f"{column}_{home_or_away}"`: the home/away split of a column, where the table has one. */
  function Split(col: Stat, side: Side): Option<Stat> {
    match col
    case GamesPlayed => Some(GamesPlayedAt(side))
    case GoalScored => Some(GoalScoredAt(side))
    case GoalConceded => Some(GoalConcededAt(side))
    case _ => None
  }

  /** LOCATIONS_DICT: codes 1..18; any other code is not a key. */
  function LocationBucket(code: int): Option<Bucket> {
    if code == 1 || code == 15 then Some(Middle)
    else if code == 2 || code == 6 || code == 7 || code == 8 || code == 16 || code == 17 || code == 18
    then Some(Difficult)
    else if code == 3 || code == 13 || code == 14 then Some(Easy)
    else if code == 4 || code == 5 then Some(Wing)
    else if code == 9 || code == 11 then Some(BoxSide)
    else if code == 10 || code == 12 then Some(SmallerBoxSide)
    else None
  }

  /** SITUATIONS_DICT: codes 1..4. */
  function SituationOf(code: int): Option<Situation> {
    if code == 1 then Some(OpenPlay)
    else if code == 2 then Some(SetPiece)
    else if code == 3 then Some(Corner)
    else if code == 4 then Some(FreeKick)
    else None
  }

  function Opposite(s: Side): Side {
    if s == Home then Away else Home
  }

  /** Every column the dispatch can split by side exists, split both ways, in the tables that
      hold the unsplit column. */
  lemma SplitColumnsExist(t: TableId, col: Stat, side: Side)
    requires col in ColumnSet(t) && Split(col, side).Some?
    ensures Split(col, side).value in ColumnSet(t)
  {
    match t
    case TeamTable => TeamSplits(col, side);
    case PlayerTable => PlayerSplits(col, side);
    case KeeperTable => KeeperSplits(col, side);
  }

  lemma TeamSplits(col: Stat, side: Side)
    requires Split(col, side).Some?
    ensures Split(col, side).value in TeamColumns()
  {
    var cs := TeamColumns();
    var home := side == Home;
    if col == GamesPlayed {
      assert cs[if home then 1 else 2] == GamesPlayedAt(side);
    } else if col == GoalScored {
      assert cs[if home then 4 else 5] == GoalScoredAt(side);
    } else {
      assert cs[if home then 7 else 8] == GoalConcededAt(side);
    }
  }

  lemma PlayerSplits(col: Stat, side: Side)
    requires col in PlayerColumns() && Split(col, side).Some?
    ensures Split(col, side).value in PlayerColumns()
  {
    PlayerSplitFacts();
  }

  /** Of the three columns that split, `players` has only the goals. */
  lemma PlayerSplitFacts()
    ensures GamesPlayed !in PlayerColumns() && GoalConceded !in PlayerColumns()
    ensures PlayerColumns()[1] == GoalScoredAt(Home) && PlayerColumns()[2] == GoalScoredAt(Away)
  {
    var cs := PlayerColumns();
    assert forall i :: 0 <= i < |cs| ==> cs[i] != GamesPlayed && cs[i] != GoalConceded;
  }

  lemma KeeperSplits(col: Stat, side: Side)
    requires col in KeeperColumns() && Split(col, side).Some?
    ensures Split(col, side).value in KeeperColumns()
  {
    assert col == GoalConceded;
    assert KeeperColumns()[if side == Home then 8 else 9] == GoalConcededAt(side);
  }
}
