/** The already-tabulated inputs of the statistics engine: event rows, lineup rows, the match
    list (ginf) and the read-only lookup maps built elsewhere (name_to_url, player_pos,
    valid_player_names, table_pos). A NaN cell is an absent Option or an absent map key. */
module Feed {
  import opened Common
  import opened Schema

  /** One row of events.csv. */
  datatype Event = Event(
    eventType: int,
    eventType2: Option<int>,
    team: string,
    opponent: string,
    player: Option<string>,
    player2: Option<string>,
    playerIn: Option<string>,
    playerOut: Option<string>,
    time: int,
    location: Option<int>,
    situation: Option<int>,
    isGoal: int,
    shotOutcome: Option<int>,
    text: string)

  /** A lineup column: "hp3" is Slot(Home, true, 3), "as12" is Slot(Away, false, 12). */
  datatype Slot = Slot(side: Side, starter: bool, nr: int)

  /** One row of lineups.csv; a slot missing from `names` holds NaN. */
  datatype Lineup = Lineup(season: int, date: string, homeTeam: string, awayTeam: string,
                           names: map<Slot, string>)

  /** One row of ginf.csv. */
  datatype MatchInfo = MatchInfo(id: string, league: string, season: int, date: string,
                                 home: string, away: string, homeGoals: int, awayGoals: int,
                                 advStats: bool)

  /** The lookup maps the core only reads. Keys are in the source's own order:
      name_to_url[(name, season, team)], valid_player_names[(name, team, season)],
      table_pos[(team, season)]. */
  datatype Registry = Registry(
    nameToUrl: map<(string, int, string), string>,
    playerPos: map<string, Position>,
    validNames: map<(string, string, int), string>,
    tablePos: map<(string, int), int>)

  function TeamOf(l: Lineup, side: Side): string {
    if side == Home then l.homeTeam else l.awayTeam
  }

  /** The eleven starter columns then the twelve substitute columns of one side:
      hp1..hp11, hs1..hs12. */
  function SideSlots(side: Side): (slots: seq<Slot>)
    ensures |slots| == 23
    ensures forall i :: 0 <= i < 23 ==> slots[i].side == side && slots[i].starter == (i < 11)
  {
    seq(23, i requires 0 <= i < 23 =>
      if i < 11 then Slot(side, true, i + 1) else Slot(side, false, i - 10))
  }

  /** The values of SideSlots(side), NaN included (`lineup[hp1..hs12].values[0]`). */
  function SideNames(l: Lineup, side: Side): (ns: seq<Option<string>>)
    ensures |ns| == 23
  {
    var slots := SideSlots(side);
    seq(23, i requires 0 <= i < 23 =>
      if slots[i] in l.names then Some(l.names[slots[i]]) else None)
  }

  /** The same side with the NaN entries dropped, in column order. */
  function Present(ns: seq<Option<string>>): (ps: seq<string>)
    ensures forall p :: p in ps <==> Some(p) in ns
    ensures |ps| <= |ns|
  {
    if ns == [] then []
    else (if ns[0].Some? then [ns[0].value] else []) + Present(ns[1..])
  }

  /** The slot order of `itertools.product(range(1, 13), ["ap", "hp", "hs", "as"])` without
      the absent twelfth starters: ap1, hp1, hs1, as1, ap2, ..., hs12, as12. */
  function ProductSlots(): seq<Slot> {
    ProductFrom(1)
  }

  function ProductFrom(nr: int): seq<Slot>
    decreases 13 - nr
  {
    if nr > 12 then []
    else if nr == 12 then [Slot(Home, false, 12), Slot(Away, false, 12)]
    else [Slot(Away, true, nr), Slot(Home, true, nr), Slot(Home, false, nr), Slot(Away, false, nr)]
         + ProductFrom(nr + 1)
  }

  /** A lineup column that exists in lineups.csv. */
  predicate ValidSlot(s: Slot) {
    1 <= s.nr && (if s.starter then s.nr <= 11 else s.nr <= 12)
  }

  /** The product order visits every lineup column, and nothing else. */
  lemma {:induction false} ProductFromCovers(nr: int, s: Slot)
    requires 1 <= nr
    ensures s in ProductFrom(nr) <==> ValidSlot(s) && nr <= s.nr
    decreases 13 - nr
  {
    if nr <= 11 {
      ProductFromCovers(nr + 1, s);
      if s.nr == nr {
        assert s == Slot(s.side, s.starter, nr);
        assert s.side == Home || s.side == Away;
      }
    } else if nr == 12 && s.nr == 12 && !s.starter {
      assert s == Slot(s.side, false, 12);
      assert s.side == Home || s.side == Away;
    }
  }

  lemma ProductSlotsCover(s: Slot)
    ensures s in ProductSlots() <==> ValidSlot(s)
  {
    ProductFromCovers(1, s);
  }
}
