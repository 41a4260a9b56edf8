/** Event attribution and dispatch inside team_stats (database_build.py:320-595): find_name
    resolves the names an event mentions against the two lineups, the player references
    (id, round, table) are looked up, and the event's type codes select the counter updates.
    The updates are produced as a list of operations in the order the source performs them;
    Accumulator applies them to the match tables. */
module Attribution {
  import opened Common
  import opened Schema
  import opened Feed

  /** A lineup side as find_name sees it: the 23 values hp1..hs12 (or ap1..as12), NaN = None. */
  type Side23 = seq<Option<string>>

  /** What find_name returns: the resolved name and the (team, other team, lineup, other
      lineup) quadruple, in the original order or swapped. */
  datatype Found = Found(name: string, team: string, other: string, lineup: Side23,
                         otherLineup: Side23)

  /** `valid_player_names.get((pl, team, season), pl)` */
  function Translate(reg: Registry, pl: string, team: string, season: int): string {
    Get(reg.validNames, (pl, team, season), pl)
  }

  /** find_name: the name (translated for the first team) is looked for in the first lineup,
      then (translated for the other team) in the other one; TypeError if in neither. */
  function FindName(reg: Registry, pl: string, team: string, other: string, lineup: Side23,
                    otherLineup: Side23, season: int): (r: Result<Found>)
    ensures r.Ok? ==> Some(r.value.name) in r.value.lineup
    ensures Some(Translate(reg, pl, team, season)) in lineup ==>
              r == Ok(Found(Translate(reg, pl, team, season), team, other, lineup, otherLineup))
    ensures Some(Translate(reg, pl, team, season)) !in lineup ==>
              (r.Ok? <==> Some(Translate(reg, pl, other, season)) in otherLineup)
    ensures Some(Translate(reg, pl, team, season)) !in lineup && r.Ok? ==>
              r.value == Found(Translate(reg, pl, other, season), other, team, otherLineup, lineup)
    ensures r.Err? ==> r.error == Unresolved
  {
    var name := Translate(reg, pl, team, season);
    if Some(name) in lineup then Ok(Found(name, team, other, lineup, otherLineup))
    else
      var name2 := Translate(reg, pl, other, season);
      if Some(name2) in otherLineup then Ok(Found(name2, other, team, otherLineup, lineup))
      else Err(Unresolved)
  }

  /** What team_stats knows about the match while it walks the events. */
  datatype MatchCtx = MatchCtx(
    reg: Registry,
    season: int,
    home: string,
    away: string,
    hmRound: int,
    awRound: int,
    lineup: Lineup,
    rounds: map<(string, int, string), int>)   // player_rounds, keyed (name, season, team)

  /** The locals of one event after the find_name calls. `evSide`, `evRound` and `opRound`
      are fixed from the event's nominal team before any swap. */
  datatype Attributed = Attributed(
    plName: string, pl2Name: string, inName: string, outName: string,
    evTeam: string, opTeam: string, evLineup: Side23, opLineup: Side23,
    evSide: Side, evRound: int, opRound: int)

  /** Corners (type 2) and own goals (type2 15) credit the player to the opponent. */
  predicate CreditsOpponent(ev: Event) {
    ev.eventType == 2 || ev.eventType2 == Some(15)
  }

  /** The two (team, lineup) pairs are the starting ones, possibly swapped. */
  predicate Paired(a: Attributed, b: Attributed) {
    || (b.evTeam == a.evTeam && b.opTeam == a.opTeam && b.evLineup == a.evLineup && b.opLineup == a.opLineup)
    || (b.evTeam == a.opTeam && b.opTeam == a.evTeam && b.evLineup == a.opLineup && b.opLineup == a.evLineup)
  }

  /** Nothing but the names and the pairs changes. */
  predicate KeepsNominal(a: Attributed, b: Attributed) {
    b.evSide == a.evSide && b.evRound == a.evRound && b.opRound == a.opRound
  }

  /** The locals before the find_name calls (database_build.py:357-372). */
  function Nominal(ctx: MatchCtx, ev: Event): (a: Attributed)
    ensures a.evSide == (if ctx.home == ev.team then Home else Away)
    ensures a.evRound == (if ctx.home == ev.team then ctx.hmRound else ctx.awRound)
    ensures a.opRound == (if ctx.home == ev.team then ctx.awRound else ctx.hmRound)
    ensures a.evTeam == ev.team && a.opTeam == ev.opponent
    ensures a.evLineup == SideNames(ctx.lineup, a.evSide)
    ensures a.opLineup == SideNames(ctx.lineup, Opposite(a.evSide))
  {
    var atHome := ctx.home == ev.team;
    Attributed("", "", "", "", ev.team, ev.opponent,
               SideNames(ctx.lineup, if atHome then Home else Away),
               SideNames(ctx.lineup, if atHome then Away else Home),
               if atHome then Home else Away,
               if atHome then ctx.hmRound else ctx.awRound,
               if atHome then ctx.awRound else ctx.hmRound)
  }

  /** find_name in the event team's order; the pairs follow the result. */
  function Direct(ctx: MatchCtx, a: Attributed, pl: string): (r: Result<(string, Attributed)>)
    ensures r.Ok? ==> Some(r.value.0) in r.value.1.evLineup
    ensures r.Ok? ==> Paired(a, r.value.1) && KeepsNominal(a, r.value.1)
  {
    var f :- FindName(ctx.reg, pl, a.evTeam, a.opTeam, a.evLineup, a.opLineup, ctx.season);
    Ok((f.name, a.(evTeam := f.team, opTeam := f.other, evLineup := f.lineup, opLineup := f.otherLineup)))
  }

  /** find_name with the teams swapped: the name is credited to the team it is found in,
      which becomes the opponent. */
  function Swapped(ctx: MatchCtx, a: Attributed, pl: string): (r: Result<(string, Attributed)>)
    ensures r.Ok? ==> Some(r.value.0) in r.value.1.opLineup
    ensures r.Ok? ==> Paired(a, r.value.1) && KeepsNominal(a, r.value.1)
  {
    var f :- FindName(ctx.reg, pl, a.opTeam, a.evTeam, a.opLineup, a.evLineup, ctx.season);
    Ok((f.name, a.(opTeam := f.team, evTeam := f.other, opLineup := f.lineup, evLineup := f.otherLineup)))
  }

  lemma PairedTransitive(a: Attributed, b: Attributed, c: Attributed)
    requires Paired(a, b) && Paired(b, c)
    ensures Paired(a, c)
  {
  }

  /** The names so far are kept. */
  predicate KeepsNames(a: Attributed, b: Attributed) {
    b.plName == a.plName && b.pl2Name == a.pl2Name && b.inName == a.inName && b.outName == a.outName
  }

  /** `player`: looked up with the teams swapped for corners and own goals. */
  function ResolvePlayer(ctx: MatchCtx, ev: Event, a: Attributed): (r: Result<Attributed>)
    ensures r.Ok? ==> Paired(a, r.value) && KeepsNominal(a, r.value)
    ensures r.Ok? ==> r.value.(plName := a.plName, evTeam := a.evTeam, opTeam := a.opTeam,
                               evLineup := a.evLineup, opLineup := a.opLineup) == a
    ensures r.Ok? && ev.player.None? ==> r.value == a
    ensures r.Ok? && ev.player.Some? ==>
              Some(r.value.plName) in (if CreditsOpponent(ev) then r.value.opLineup else r.value.evLineup)
  {
    if ev.player.None? then Ok(a)
    else if !CreditsOpponent(ev) then
      var (n, b) :- Direct(ctx, a, ev.player.value); Ok(b.(plName := n))
    else
      var (n, b) :- Swapped(ctx, a, ev.player.value); Ok(b.(plName := n))
  }

  /** `player2`, unless the event is a corner. */
  function ResolvePlayer2(ctx: MatchCtx, ev: Event, a: Attributed): (r: Result<Attributed>)
    ensures r.Ok? ==> Paired(a, r.value) && KeepsNominal(a, r.value)
    ensures r.Ok? ==> r.value.(pl2Name := a.pl2Name, evTeam := a.evTeam, opTeam := a.opTeam,
                               evLineup := a.evLineup, opLineup := a.opLineup) == a
    ensures r.Ok? && (ev.player2.None? || ev.eventType == 2) ==> r.value == a
  {
    if ev.player2.None? || ev.eventType == 2 then Ok(a)
    else var (n, b) :- Direct(ctx, a, ev.player2.value); Ok(b.(pl2Name := n))
  }

  function ResolveIn(ctx: MatchCtx, ev: Event, a: Attributed): (r: Result<Attributed>)
    ensures r.Ok? ==> Paired(a, r.value) && KeepsNominal(a, r.value)
    ensures r.Ok? ==> r.value.(inName := a.inName, evTeam := a.evTeam, opTeam := a.opTeam,
                               evLineup := a.evLineup, opLineup := a.opLineup) == a
    ensures r.Ok? && ev.playerIn.None? ==> r.value == a
  {
    if ev.playerIn.None? then Ok(a)
    else var (n, b) :- Direct(ctx, a, ev.playerIn.value); Ok(b.(inName := n))
  }

  function ResolveOut(ctx: MatchCtx, ev: Event, a: Attributed): (r: Result<Attributed>)
    ensures r.Ok? ==> Paired(a, r.value) && KeepsNominal(a, r.value)
    ensures r.Ok? ==> r.value.(outName := a.outName, evTeam := a.evTeam, opTeam := a.opTeam,
                               evLineup := a.evLineup, opLineup := a.opLineup) == a
    ensures r.Ok? && ev.playerOut.None? ==> r.value == a
  {
    if ev.playerOut.None? then Ok(a)
    else var (n, b) :- Direct(ctx, a, ev.playerOut.value); Ok(b.(outName := n))
  }

  /** The four find_name calls in order (database_build.py:375-394). Whatever they swap, the
      side and the two rounds stay those of the nominal event team, and the final pairs are
      the nominal ones or their swap. */
  function Resolve(ctx: MatchCtx, ev: Event): (r: Result<Attributed>)
    ensures r.Ok? ==> Paired(Nominal(ctx, ev), r.value) && KeepsNominal(Nominal(ctx, ev), r.value)
    ensures r.Ok? && ev.player.None? ==> r.value.plName == ""
    ensures r.Ok? && ev.playerIn.None? ==> r.value.inName == ""
    ensures r.Ok? && ev.playerOut.None? ==> r.value.outName == ""
  {
    var a0 := Nominal(ctx, ev);
    var a1 :- ResolvePlayer(ctx, ev, a0);
    var a2 :- ResolvePlayer2(ctx, ev, a1);
    var a3 :- ResolveIn(ctx, ev, a2);
    var a4 :- ResolveOut(ctx, ev, a3);
    PairedTransitive(a0, a1, a2);
    PairedTransitive(a0, a2, a3);
    PairedTransitive(a0, a3, a4);
    Ok(a4)
  }

  /** A player as the dispatch addresses him: id, round, and whether his rows live in
      `_goalkeepers` (player_pos says "Goalkeeper") rather than `_players`. */
  datatype PlayerRef = PlayerRef(id: string, round: int, keeper: bool)

  /** Python locals of team_stats that keep their value from one event to the next:
      (ev_pl_id, ev_pl_round, db), (ev_plin_id, ...) and (ev_plout_id, ...). None: never
      assigned yet in this match. */
  datatype Carried = Carried(pl: Option<PlayerRef>, plIn: Option<PlayerRef>, plOut: Option<PlayerRef>)

  function Fresh(): Carried {
    Carried(None, None, None)
  }

  /** name_to_url, player_rounds and player_pos looked up for (name, season, team). */
  function LookupRef(ctx: MatchCtx, name: string, team: string): (r: Result<PlayerRef>)
    ensures r.Ok? <==> (name, ctx.season, team) in ctx.reg.nameToUrl
                       && (name, ctx.season, team) in ctx.rounds
                       && ctx.reg.nameToUrl[(name, ctx.season, team)] in ctx.reg.playerPos
    ensures r.Ok? ==> r.value.id == ctx.reg.nameToUrl[(name, ctx.season, team)]
                      && r.value.round == ctx.rounds[(name, ctx.season, team)]
    ensures r.Err? ==> r.error == KeyError
  {
    var key := (name, ctx.season, team);
    if key !in ctx.reg.nameToUrl || key !in ctx.rounds then Err(KeyError)
    else
      var id := ctx.reg.nameToUrl[key];
      if id !in ctx.reg.playerPos then Err(KeyError)
      else Ok(PlayerRef(id, ctx.rounds[key], ctx.reg.playerPos[id] == Goalkeeper))
  }

  /** A failed lookup re-raises its KeyError after printing, among others, a stale id local;
      when that local was never assigned the print itself raises UnboundLocalError. The id
      being looked up is assigned first, so it counts as assigned once name_to_url knew it. */
  function Reraise(printed: Option<PlayerRef>, idAssigned: bool): Error {
    if printed.None? && !idAssigned then UnboundLocal else KeyError
  }

  /** The reference lookups after name resolution (database_build.py:396-447). */
  function Refs(ctx: MatchCtx, ev: Event, a: Attributed, c: Carried): (r: Result<Carried>)
    ensures r.Ok? && ev.eventType == 7 ==> r.value.pl == c.pl
    ensures r.Ok? && ev.eventType != 7 ==> r.value.plIn == c.plIn && r.value.plOut == c.plOut
    ensures r.Ok? && ev.eventType != 7 && a.plName == "" ==> r.value == c
    ensures r.Ok? && ev.eventType != 7 && a.plName != "" ==>
              LookupRef(ctx, a.plName, if CreditsOpponent(ev) then a.opTeam else a.evTeam).Ok? &&
              r.value.pl == Some(LookupRef(ctx, a.plName, if CreditsOpponent(ev) then a.opTeam else a.evTeam).value)
  {
    if ev.eventType == 7 then
      var c1 :-
        if a.inName == "" then Ok(c)
        else
          var p := LookupRef(ctx, a.inName, a.evTeam);
          if p.Err? then Err(Reraise(c.plIn, (a.inName, ctx.season, a.evTeam) in ctx.reg.nameToUrl))
          else Ok(c.(plIn := Some(p.value)));
      if a.outName == "" then Ok(c1)
      else
        var p := LookupRef(ctx, a.outName, a.evTeam);
        if p.Err? then Err(Reraise(c1.plIn, false))
        else Ok(c1.(plOut := Some(p.value)))
    else if a.plName == "" then Ok(c)
    else
      var team := if CreditsOpponent(ev) then a.opTeam else a.evTeam;
      var p := LookupRef(ctx, a.plName, team);
      if p.Err? then Err(Reraise(c.pl, (a.plName, ctx.season, team) in ctx.reg.nameToUrl))
      else Ok(c.(pl := Some(p.value)))
  }

  /** One counter update of the dispatch, or the exception that ends the match. */
  datatype Op =
    | TeamAdd(team: string, round: int, col: Stat, side: Option<Side>)   // append_value(_teams, ...)
    | PlayerAdd(ref: PlayerRef, col: Stat, side: Option<Side>)           // append_value(db, ..., id=...)
    | PlayerTime(ref: PlayerRef, minute: int)                            // ... time=True
    | KeeperCredit(team: string, saved: bool, goalCon: bool)             // keeper_update
    | Fail(error: Error)

  predicate Failed(ops: seq<Op>) {
    exists o :: o in ops && o.Fail?
  }

  /** Sequencing: nothing runs after an exception. */
  function Then(a: seq<Op>, b: seq<Op>): (r: seq<Op>)
    ensures Failed(a) ==> r == a
    ensures !Failed(a) ==> r == a + b
  {
    if Failed(a) then a else a + b
  }

  /** `if player_pos[ev_pl_id] != "Goalkeeper": append_value(db, ...)` */
  function Outfield(p: PlayerRef, col: Stat, side: Option<Side>): seq<Op> {
    if p.keeper then [] else [PlayerAdd(p, col, side)]
  }

  /** The location and situation buckets of a shot (database_build.py:454-460, 493-502).
      Location 19 and NaN are skipped; any other code outside 1..18 is a KeyError. */
  function BucketOps(ev: Event, a: Attributed): seq<Op> {
    var loc :=
      if ev.location.None? || ev.location.value == 19 then []
      else match LocationBucket(ev.location.value)
        case None => [Fail(KeyError)]
        case Some(b) => [TeamAdd(a.evTeam, a.evRound, ShotMade(b), None),
                         TeamAdd(a.opTeam, a.opRound, ShotConceded(b), None)];
    var sit :=
      if ev.situation.None? then []
      else match SituationOf(ev.situation.value)
        case None => [Fail(KeyError)]
        case Some(s) => [TeamAdd(a.evTeam, a.evRound, Made(s), None),
                         TeamAdd(a.opTeam, a.opRound, Conceded(s), None)];
    Then(loc, sit)
  }

  /** The goal block (database_build.py:450-473). */
  function GoalOps(ev: Event, a: Attributed, c: Carried): seq<Op> {
    if ev.isGoal != 1 then []
    else
      var head := [TeamAdd(a.evTeam, a.evRound, GoalScored, Some(a.evSide)),
                   TeamAdd(a.opTeam, a.opRound, GoalConceded, Some(Opposite(a.evSide))),
                   TeamAdd(a.evTeam, a.evRound, AttemptsShots, None)];
      var pre := Then(head + BucketOps(ev, a), [KeeperCredit(a.opTeam, false, true)]);
      if ev.eventType2 == Some(15) then
        Then(pre, [TeamAdd(a.opTeam, a.opRound, OwnGoals, None)] +
                  (if c.pl.None? then [Fail(UnboundLocal)] else Outfield(c.pl.value, OwnGoals, None)))
      else
        Then(pre, (if c.pl.None? then [Fail(UnboundLocal)] else Outfield(c.pl.value, GoalScored, Some(a.evSide))))
  }

  /** The key-pass / offside-pass block (database_build.py:476-484); `second` is the player2
      reference when evapp2 holds. */
  function PassOps(ev: Event, second: Option<PlayerRef>): seq<Op> {
    if ev.eventType2 == Some(12) && second.Some? && !second.value.keeper then
      [PlayerAdd(second.value, KeyPasses, None)]
    else if ev.eventType2 == Some(13) && second.Some? && !second.value.keeper then
      [PlayerAdd(second.value, OffsidePass, None)]
    else []
  }

  /** The substitution: both players' entries and minutes, and an injury mark when the
      commentary mentions one. */
  function SubstitutionOps(ev: Event, a: Attributed, c: Carried): seq<Op> {
    [TeamAdd(a.evTeam, a.evRound, Substitutions, None)] +
    (if c.plIn.None? then [Fail(UnboundLocal)]
     else
       var pin := c.plIn.value;
       [PlayerAdd(pin, SubsIn, None), PlayerTime(pin, ev.time)] +
       (if c.plOut.None? then [Fail(UnboundLocal)]
        else
          var pout := c.plOut.value;
          [PlayerAdd(pout, SubsOut, None), PlayerTime(pout, ev.time)] +
          (if Contains(ev.text, "injur") then [PlayerAdd(pout, HasInjured, None)] else [])))
  }

  /** The shot block (type 1): the shooter's attempt, the team's attempt and buckets, and on
      target the team's and the shooter's shots on target and the opposing keeper's credit. */
  function ShotOps(ev: Event, a: Attributed, p: PlayerRef): seq<Op> {
    Outfield(p, AttemptsShots, None) +
    Then([TeamAdd(a.evTeam, a.evRound, AttemptsShots, None)] + BucketOps(ev, a),
         if ev.shotOutcome != Some(1) then []
         else [TeamAdd(a.evTeam, a.evRound, ShotsOnTarget, None)] +
              (if p.keeper then []
               else [PlayerAdd(p, ShotsOnTarget, None), KeeperCredit(a.opTeam, ev.isGoal == 0, false)]))
  }

  /** How an event kind other than a shot or a substitution updates the counters: team
      columns (true: the opponent's), then the player's columns, only for outfield players
      when `outfieldOnly`, followed by his exit minute when `exit` (the two red cards). */
  datatype Handler = Handler(team: seq<(bool, Stat)>, player: seq<Stat>, outfieldOnly: bool, exit: bool)

  /** The branches of the dispatch for event types 2-6 and 8-11 (database_build.py:518-595). */
  function HandlerOf(t: int): Option<Handler> {
    if t == 2 then Some(Handler([(false, CornersWon), (true, CornersConceded)], [CornersConceded], true, false))
    else if t == 3 then Some(Handler([(false, Fouls)], [Fouls], false, false))
    else if t == 4 then Some(Handler([(false, YellowCards)], [YellowCards], false, false))
    else if t == 5 then
      Some(Handler([(false, YellowCards), (false, RedCards)], [SecondYellowCard, SubsOut], false, true))
    else if t == 6 then Some(Handler([(false, RedCards)], [StraightRedCard, SubsOut], false, true))
    else if t == 8 then
      Some(Handler([(false, FreeKicksWon), (true, FreeKicksConceded)], [FreeKicksWon], true, false))
    else if t == 9 then Some(Handler([(false, Offsides)], [Offsides], true, false))
    else if t == 10 then Some(Handler([], [HandBall], true, false))
    else if t == 11 then Some(Handler([(false, PenaltiesConceded), (true, PenaltiesWon)], [], false, false))
    else None
  }

  function TeamPart(a: Attributed, team: seq<(bool, Stat)>): (ops: seq<Op>)
    ensures |ops| == |team|
    ensures forall i :: 0 <= i < |team| ==>
              ops[i] == TeamAdd(if team[i].0 then a.opTeam else a.evTeam,
                                if team[i].0 then a.opRound else a.evRound, team[i].1, None)
  {
    seq(|team|, i requires 0 <= i < |team| =>
      TeamAdd(if team[i].0 then a.opTeam else a.evTeam, if team[i].0 then a.opRound else a.evRound,
              team[i].1, None))
  }

  function PlayerPart(p: PlayerRef, h: Handler, minute: int): (ops: seq<Op>)
    ensures h.outfieldOnly && p.keeper ==> ops == []
    ensures !(h.outfieldOnly && p.keeper) ==>
              |ops| == |h.player| + (if h.exit then 1 else 0) &&
              (forall i :: 0 <= i < |h.player| ==> ops[i] == PlayerAdd(p, h.player[i], None)) &&
              (h.exit ==> ops[|h.player|] == PlayerTime(p, minute))
  {
    if h.outfieldOnly && p.keeper then []
    else seq(|h.player|, i requires 0 <= i < |h.player| => PlayerAdd(p, h.player[i], None)) +
         (if h.exit then [PlayerTime(p, minute)] else [])
  }

  /** A handler's operations; a kind that reads the player needs his local assigned. */
  function HandlerOps(ev: Event, a: Attributed, c: Carried, h: Handler): seq<Op> {
    TeamPart(a, h.team) +
    (if h.player == [] then []
     else if c.pl.None? then [Fail(UnboundLocal)]
     else PlayerPart(c.pl.value, h, ev.time))
  }

  /** The dispatch on event_type (database_build.py:487-595). */
  function KindOps(ev: Event, a: Attributed, c: Carried): seq<Op> {
    if ev.eventType == 1 then
      if c.pl.None? then [Fail(UnboundLocal)] else ShotOps(ev, a, c.pl.value)
    else if ev.eventType == 7 then SubstitutionOps(ev, a, c)
    else match HandlerOf(ev.eventType)
      case None => []
      case Some(h) => HandlerOps(ev, a, c, h)
  }

  /** evapp2: the player2 reference, when player2's name is known for the event team. */
  function SecondRef(ctx: MatchCtx, a: Attributed): Result<Option<PlayerRef>> {
    var key := (a.pl2Name, ctx.season, a.evTeam);
    if key in ctx.reg.nameToUrl && key in ctx.rounds then
      var id := ctx.reg.nameToUrl[key];
      if id !in ctx.reg.playerPos then Err(KeyError)
      else Ok(Some(PlayerRef(id, ctx.rounds[key], ctx.reg.playerPos[id] == Goalkeeper)))
    else Ok(None)
  }

  /** The goal block, the pass block and the kind block, each run only if the previous did
      not raise. */
  function Blocks(ev: Event, a: Attributed, c: Carried, second: Option<PlayerRef>): seq<Op> {
    Then(Then(GoalOps(ev, a, c), PassOps(ev, second)), KindOps(ev, a, c))
  }

  /** The whole treatment of one event: its operations in source order (ending in Fail when
      it raises) and the locals carried to the next event. */
  function EventOps(ctx: MatchCtx, ev: Event, c: Carried): (r: (seq<Op>, Carried))
  {
    match Resolve(ctx, ev)
    case Err(e) => ([Fail(e)], c)
    case Ok(a) =>
      match Refs(ctx, ev, a, c)
      case Err(e) => ([Fail(e)], c)
      case Ok(c1) =>
        match SecondRef(ctx, a)
        case Err(e) => ([Fail(e)], c1)
        case Ok(second) => (Blocks(ev, a, c1, second), c1)
  }

  /** The three blocks of an event whose lookups succeeded: goal, pass, kind. */
  lemma ThenParts(g: seq<Op>, p: seq<Op>, k: seq<Op>)
    ensures var ops := Then(Then(g, p), k);
            g <= ops && (!Failed(ops) ==> ops == g + p + k && !Failed(g) && !Failed(p) && !Failed(k))
  {
  }

  /** The event's lookups all succeed; `a` and `c1` are then its attribution and the updated
      locals. */
  predicate Attributes(ctx: MatchCtx, ev: Event, c: Carried, a: Attributed, c1: Carried) {
    && Resolve(ctx, ev) == Ok(a)
    && Refs(ctx, ev, a, c) == Ok(c1)
    && SecondRef(ctx, a).Ok?
  }

  lemma EventOpsParts(ctx: MatchCtx, ev: Event, c: Carried, a: Attributed, c1: Carried)
    requires Attributes(ctx, ev, c, a, c1)
    ensures EventOps(ctx, ev, c).1 == c1
    ensures EventOps(ctx, ev, c).0 == Blocks(ev, a, c1, SecondRef(ctx, a).value)
  {
  }

  /** A goal first credits the scoring team's goals (and its home/away split), then the
      conceding team's, then the scoring team's attempts. */
  lemma GoalCredits(ctx: MatchCtx, ev: Event, c: Carried, a: Attributed, c1: Carried)
    requires Attributes(ctx, ev, c, a, c1) && ev.isGoal == 1
    ensures [TeamAdd(a.evTeam, a.evRound, GoalScored, Some(a.evSide)),
             TeamAdd(a.opTeam, a.opRound, GoalConceded, Some(Opposite(a.evSide))),
             TeamAdd(a.evTeam, a.evRound, AttemptsShots, None)] <= EventOps(ctx, ev, c).0
  {
    EventOpsParts(ctx, ev, c, a, c1);
    var g := GoalOps(ev, a, c1);
    ThenParts(g, PassOps(ev, SecondRef(ctx, a).value), KindOps(ev, a, c1));
    var head := [TeamAdd(a.evTeam, a.evRound, GoalScored, Some(a.evSide)),
                 TeamAdd(a.opTeam, a.opRound, GoalConceded, Some(Opposite(a.evSide))),
                 TeamAdd(a.evTeam, a.evRound, AttemptsShots, None)];
    assert head <= g;
  }

  /** No bucket operation counts attempts. */
  lemma BucketOpsNoAttempts(ev: Event, a: Attributed)
    ensures forall o :: o in BucketOps(ev, a) ==> !(o.TeamAdd? && o.col == AttemptsShots)
  {
  }

  /** Without an assigned player local, a goal raises. */
  lemma GoalNeedsPlayer(ev: Event, a: Attributed, c: Carried)
    requires ev.isGoal == 1
    ensures c.pl.None? ==> Failed(GoalOps(ev, a, c))
  {
    if c.pl.None? {
      var head := [TeamAdd(a.evTeam, a.evRound, GoalScored, Some(a.evSide)),
                   TeamAdd(a.opTeam, a.opRound, GoalConceded, Some(Opposite(a.evSide))),
                   TeamAdd(a.evTeam, a.evRound, AttemptsShots, None)];
      var pre := Then(head + BucketOps(ev, a), [KeeperCredit(a.opTeam, false, true)]);
      var rest := if ev.eventType2 == Some(15)
                  then [TeamAdd(a.opTeam, a.opRound, OwnGoals, None)] + [Fail(UnboundLocal)]
                  else [Fail(UnboundLocal)];
      assert GoalOps(ev, a, c) == Then(pre, rest);
      if !Failed(pre) {
        assert Fail(UnboundLocal) in pre + rest;
      }
    }
  }

  /** Without an assigned player local, a shot raises. */
  lemma ShotNeedsPlayer(ev: Event, a: Attributed, c: Carried)
    requires ev.eventType == 1
    ensures c.pl.None? ==> Failed(KindOps(ev, a, c))
  {
    if c.pl.None? {
      assert KindOps(ev, a, c) == [Fail(UnboundLocal)];
      assert Fail(UnboundLocal) in KindOps(ev, a, c);
    }
  }

  /** The goal block counts one attempt for the scoring team. */
  lemma GoalOpsOneAttempt(ev: Event, a: Attributed, c: Carried)
    requires ev.isGoal == 1 && !Failed(GoalOps(ev, a, c))
    ensures multiset(GoalOps(ev, a, c))[TeamAdd(a.evTeam, a.evRound, AttemptsShots, None)] == 1
  {
    var x := TeamAdd(a.evTeam, a.evRound, AttemptsShots, None);
    var head := [TeamAdd(a.evTeam, a.evRound, GoalScored, Some(a.evSide)),
                 TeamAdd(a.opTeam, a.opRound, GoalConceded, Some(Opposite(a.evSide))), x];
    var b := BucketOps(ev, a);
    var rest := GoalOpsParts(ev, a, c);
    BucketOpsNoAttempts(ev, a);
    CountOnce(head, b + [KeeperCredit(a.opTeam, false, true)] + rest, x);
  }

  /** An operation that occurs once at the front and nowhere after it occurs once. */
  lemma CountOnce(head: seq<Op>, tail: seq<Op>, x: Op)
    requires |head| == 3 && head[2] == x && head[0] != x && head[1] != x && x !in tail
    ensures multiset(head + tail)[x] == 1
  {
    assert multiset(tail)[x] == 0;
    assert head == [head[0]] + [head[1]] + [x];
    assert multiset(head) == multiset([head[0]]) + multiset([head[1]]) + multiset([x]);
  }

  /** A goal block that does not raise: the three team counters, the buckets, the keeper
      credit, then only an own-goal counter and player operations. */
  lemma GoalOpsParts(ev: Event, a: Attributed, c: Carried) returns (rest: seq<Op>)
    requires ev.isGoal == 1 && !Failed(GoalOps(ev, a, c))
    ensures GoalOps(ev, a, c)
            == [TeamAdd(a.evTeam, a.evRound, GoalScored, Some(a.evSide)),
                TeamAdd(a.opTeam, a.opRound, GoalConceded, Some(Opposite(a.evSide))),
                TeamAdd(a.evTeam, a.evRound, AttemptsShots, None)]
               + BucketOps(ev, a) + [KeeperCredit(a.opTeam, false, true)] + rest
    ensures forall o :: o in rest ==> o.PlayerAdd? || (o.TeamAdd? && o.col == OwnGoals)
  {
    GoalNeedsPlayer(ev, a, c);
    var own := if ev.eventType2 == Some(15) then [TeamAdd(a.opTeam, a.opRound, OwnGoals, None)] else [];
    var tail := Outfield(c.pl.value, if ev.eventType2 == Some(15) then OwnGoals else GoalScored,
                         if ev.eventType2 == Some(15) then None else Some(a.evSide));
    rest := own + tail;
  }

  /** The shot block (type 1) counts one attempt for the shooting team. */
  lemma KindOpsOneAttempt(ev: Event, a: Attributed, c: Carried)
    requires ev.eventType == 1 && !Failed(KindOps(ev, a, c))
    ensures multiset(KindOps(ev, a, c))[TeamAdd(a.evTeam, a.evRound, AttemptsShots, None)] == 1
  {
    ShotNeedsPlayer(ev, a, c);
    ShotOpsOneAttempt(ev, a, c.pl.value);
  }

  lemma ThenCount(pre: seq<Op>, post: seq<Op>, o: Op)
    requires !Failed(Then(pre, post))
    ensures multiset(Then(pre, post))[o] == multiset(pre)[o] + multiset(post)[o]
  {
  }

  lemma ShotOpsOneAttempt(ev: Event, a: Attributed, p: PlayerRef)
    requires !Failed(ShotOps(ev, a, p))
    ensures multiset(ShotOps(ev, a, p))[TeamAdd(a.evTeam, a.evRound, AttemptsShots, None)] == 1
  {
    var x := TeamAdd(a.evTeam, a.evRound, AttemptsShots, None);
    BucketOpsNoAttempts(ev, a);
    var b := BucketOps(ev, a);
    assert multiset(b)[x] == 0;
    var shot := if ev.shotOutcome != Some(1) then []
                else [TeamAdd(a.evTeam, a.evRound, ShotsOnTarget, None)] +
                     (if p.keeper then []
                      else [PlayerAdd(p, ShotsOnTarget, None), KeeperCredit(a.opTeam, ev.isGoal == 0, false)]);
    assert multiset(shot)[x] == 0;
    var out := Outfield(p, AttemptsShots, None);
    assert multiset(out)[x] == 0;
    assert ShotOps(ev, a, p) == out + Then([x] + b, shot);
    ThenCount([x] + b, shot, x);
  }

  /** A goal that is also a shot (type 1) counts the scoring team's attempt twice: once in the
      goal block and once in the shot block. */
  lemma GoalShotCountedTwice(ctx: MatchCtx, ev: Event, c: Carried, a: Attributed, c1: Carried)
    requires Attributes(ctx, ev, c, a, c1) && ev.isGoal == 1 && ev.eventType == 1
    requires !Failed(EventOps(ctx, ev, c).0)
    ensures multiset(EventOps(ctx, ev, c).0)[TeamAdd(a.evTeam, a.evRound, AttemptsShots, None)] == 2
  {
    EventOpsParts(ctx, ev, c, a, c1);
    var g, p, k := GoalOps(ev, a, c1), PassOps(ev, SecondRef(ctx, a).value), KindOps(ev, a, c1);
    ThenParts(g, p, k);
    GoalOpsOneAttempt(ev, a, c1);
    KindOpsOneAttempt(ev, a, c1);
  }

  lemma ThenMembers(a: seq<Op>, b: seq<Op>, o: Op)
    ensures o in Then(a, b) ==> o in a || o in b
  {
  }

  /** The block of an event whose lookups succeeded, by block. */
  lemma EventOpsMembers(ctx: MatchCtx, ev: Event, c: Carried, a: Attributed, c1: Carried, o: Op)
    requires Attributes(ctx, ev, c, a, c1)
    ensures o in EventOps(ctx, ev, c).0 ==>
              o in GoalOps(ev, a, c1) || o in PassOps(ev, SecondRef(ctx, a).value) || o in KindOps(ev, a, c1)
  {
    EventOpsParts(ctx, ev, c, a, c1);
    var g, p, k := GoalOps(ev, a, c1), PassOps(ev, SecondRef(ctx, a).value), KindOps(ev, a, c1);
    ThenMembers(Then(g, p), k, o);
    ThenMembers(g, p, o);
  }

  /** The operations of a table column that splits by side. */
  predicate AddsTo(o: Op, col: Stat) {
    (o.TeamAdd? || o.PlayerAdd?) && o.col == col
  }

  /** A handler's operations only touch its own columns. */
  lemma HandlerOpsCols(ev: Event, a: Attributed, c: Carried, h: Handler, o: Op)
    requires o in HandlerOps(ev, a, c, h)
    ensures o.PlayerAdd? ==> o.col in h.player
    ensures o.TeamAdd? ==> exists i :: 0 <= i < |h.team| && o.col == h.team[i].1
  {
    var tp := TeamPart(a, h.team);
    if o in tp {
      var i :| 0 <= i < |tp| && tp[i] == o;
    } else if h.player != [] && c.pl.Some? {
      var pp := PlayerPart(c.pl.value, h, ev.time);
      assert o in pp;
      var i :| 0 <= i < |pp| && pp[i] == o;
    }
  }

  /** The buckets only ever add team counters (or raise). */
  lemma BucketOpsTeam(ev: Event, a: Attributed)
    ensures forall o :: o in BucketOps(ev, a) ==> o.TeamAdd? || o.Fail?
  {
  }

  lemma ShotOpsMembers(ev: Event, a: Attributed, p: PlayerRef, o: Op)
    requires o in ShotOps(ev, a, p)
    ensures o.PlayerAdd? ==> o.col == AttemptsShots || o.col == ShotsOnTarget
    ensures o.TeamAdd? ==> o.col == AttemptsShots || o.col == ShotsOnTarget || o in BucketOps(ev, a)
  {
    BucketOpsTeam(ev, a);
  }

  lemma KindOpsNeverScore(ev: Event, a: Attributed, c: Carried)
    ensures forall o :: o in KindOps(ev, a, c) ==> !(o.PlayerAdd? && o.col == GoalScored)
  {
    var k := KindOps(ev, a, c);
    if ev.eventType == 1 && c.pl.Some? {
      assert k == ShotOps(ev, a, c.pl.value);
      forall o | o in k ensures !(o.PlayerAdd? && o.col == GoalScored) {
        ShotOpsMembers(ev, a, c.pl.value, o);
      }
    } else if ev.eventType != 1 && ev.eventType != 7 && HandlerOf(ev.eventType).Some? {
      var h := HandlerOf(ev.eventType).value;
      assert GoalScored !in h.player;
      assert k == HandlerOps(ev, a, c, h);
      forall o | o in k ensures !(o.PlayerAdd? && o.col == GoalScored) {
        HandlerOpsCols(ev, a, c, h, o);
      }
    }
  }

  lemma GoalOpsOwnGoalNeverScores(ev: Event, a: Attributed, c: Carried)
    requires ev.eventType2 == Some(15)
    ensures forall o :: o in GoalOps(ev, a, c) ==> !(o.PlayerAdd? && o.col == GoalScored)
  {
    if ev.isGoal == 1 {
      var head := [TeamAdd(a.evTeam, a.evRound, GoalScored, Some(a.evSide)),
                   TeamAdd(a.opTeam, a.opRound, GoalConceded, Some(Opposite(a.evSide))),
                   TeamAdd(a.evTeam, a.evRound, AttemptsShots, None)];
      var pre := Then(head + BucketOps(ev, a), [KeeperCredit(a.opTeam, false, true)]);
      assert forall o :: o in pre ==> !o.PlayerAdd?;
    }
  }

  /** An own goal (type2 15) never credits a player with a goal. */
  lemma OwnGoalNeverScores(ctx: MatchCtx, ev: Event, c: Carried, a: Attributed, c1: Carried)
    requires Attributes(ctx, ev, c, a, c1) && ev.eventType2 == Some(15)
    ensures forall o :: o in EventOps(ctx, ev, c).0 ==> !(o.PlayerAdd? && o.col == GoalScored)
  {
    KindOpsNeverScore(ev, a, c1);
    GoalOpsOwnGoalNeverScores(ev, a, c1);
    forall o | o in EventOps(ctx, ev, c).0 ensures !(o.PlayerAdd? && o.col == GoalScored) {
      EventOpsMembers(ctx, ev, c, a, c1, o);
    }
  }

  /** An own goal that goes through credits the conceding side's team with the own goal, and
      the player too unless he is a goalkeeper. */
  lemma OwnGoalCredited(ctx: MatchCtx, ev: Event, c: Carried, a: Attributed, c1: Carried)
    requires Attributes(ctx, ev, c, a, c1) && ev.eventType2 == Some(15) && ev.isGoal == 1
    requires !Failed(EventOps(ctx, ev, c).0)
    ensures TeamAdd(a.opTeam, a.opRound, OwnGoals, None) in EventOps(ctx, ev, c).0
    ensures c1.pl.Some? && (!c1.pl.value.keeper ==> PlayerAdd(c1.pl.value, OwnGoals, None) in EventOps(ctx, ev, c).0)
  {
    EventOpsParts(ctx, ev, c, a, c1);
    var g := GoalOps(ev, a, c1);
    ThenParts(g, PassOps(ev, SecondRef(ctx, a).value), KindOps(ev, a, c1));
    GoalNeedsPlayer(ev, a, c1);
    var head := [TeamAdd(a.evTeam, a.evRound, GoalScored, Some(a.evSide)),
                 TeamAdd(a.opTeam, a.opRound, GoalConceded, Some(Opposite(a.evSide))),
                 TeamAdd(a.evTeam, a.evRound, AttemptsShots, None)];
    var pre := Then(head + BucketOps(ev, a), [KeeperCredit(a.opTeam, false, true)]);
    var rest := [TeamAdd(a.opTeam, a.opRound, OwnGoals, None)] + Outfield(c1.pl.value, OwnGoals, None);
    assert g == Then(pre, rest);
    assert g == pre + rest;
  }

  predicate Bucketed(o: Op) {
    o.TeamAdd? && (o.col.ShotMade? || o.col.ShotConceded?)
  }

  lemma BucketOpsAt19(ev: Event, a: Attributed)
    requires ev.location == Some(19) || ev.location.None?
    ensures forall o :: o in BucketOps(ev, a) ==> !Bucketed(o)
  {
  }

  lemma GoalOpsAt19(ev: Event, a: Attributed, c: Carried)
    requires ev.location == Some(19) || ev.location.None?
    ensures forall o :: o in GoalOps(ev, a, c) ==> !Bucketed(o)
  {
    BucketOpsAt19(ev, a);
    if ev.isGoal == 1 {
      var head := [TeamAdd(a.evTeam, a.evRound, GoalScored, Some(a.evSide)),
                   TeamAdd(a.opTeam, a.opRound, GoalConceded, Some(Opposite(a.evSide))),
                   TeamAdd(a.evTeam, a.evRound, AttemptsShots, None)];
      var pre := Then(head + BucketOps(ev, a), [KeeperCredit(a.opTeam, false, true)]);
      assert forall o :: o in pre ==> !Bucketed(o);
    }
  }

  lemma KindOpsAt19(ev: Event, a: Attributed, c: Carried)
    requires ev.location == Some(19) || ev.location.None?
    ensures forall o :: o in KindOps(ev, a, c) ==> !Bucketed(o)
  {
    if ev.eventType == 1 && c.pl.Some? {
      ShotOpsAt19(ev, a, c.pl.value);
    } else if ev.eventType != 1 && ev.eventType != 7 && HandlerOf(ev.eventType).Some? {
      HandlerOpsAt19(ev, a, c, HandlerOf(ev.eventType).value);
    }
  }

  lemma ShotOpsAt19(ev: Event, a: Attributed, p: PlayerRef)
    requires ev.location == Some(19) || ev.location.None?
    ensures forall o :: o in ShotOps(ev, a, p) ==> !Bucketed(o)
  {
    BucketOpsAt19(ev, a);
    forall o | o in ShotOps(ev, a, p) ensures !Bucketed(o) {
      ShotOpsMembers(ev, a, p, o);
    }
  }

  /** No handler counts a shot bucket. */
  lemma HandlerOpsAt19(ev: Event, a: Attributed, c: Carried, h: Handler)
    requires HandlerOf(ev.eventType) == Some(h)
    ensures forall o :: o in HandlerOps(ev, a, c, h) ==> !Bucketed(o)
  {
    assert forall i :: 0 <= i < |h.team| ==> !h.team[i].1.ShotMade? && !h.team[i].1.ShotConceded?;
    forall o | o in HandlerOps(ev, a, c, h) ensures !Bucketed(o) {
      HandlerOpsCols(ev, a, c, h, o);
    }
  }

  /** Location 19 (and a missing location) is never bucketed. */
  lemma Location19NeverBucketed(ctx: MatchCtx, ev: Event, c: Carried, a: Attributed, c1: Carried)
    requires Attributes(ctx, ev, c, a, c1) && (ev.location == Some(19) || ev.location.None?)
    ensures forall o :: o in EventOps(ctx, ev, c).0 ==> !Bucketed(o)
  {
    GoalOpsAt19(ev, a, c1);
    KindOpsAt19(ev, a, c1);
    forall o | o in EventOps(ctx, ev, c).0 ensures !Bucketed(o) {
      EventOpsMembers(ctx, ev, c, a, c1, o);
    }
  }

  /** The team-table operations of a list, in order. */
  function TeamOps(ops: seq<Op>): (ts: seq<Op>)
    ensures forall o :: o in ts <==> o in ops && o.TeamAdd?
  {
    if ops == [] then [] else (if ops[0].TeamAdd? then [ops[0]] else []) + TeamOps(ops[1..])
  }

  lemma {:induction false} TeamOpsConcat(a: seq<Op>, b: seq<Op>)
    ensures TeamOps(a + b) == TeamOps(a) + TeamOps(b)
  {
    if a == [] {
      assert a + b == b;
    } else {
      assert (a + b)[1..] == a[1..] + b;
      TeamOpsConcat(a[1..], b);
    }
  }

  lemma {:induction false} TeamOpsNone(ops: seq<Op>)
    requires forall o :: o in ops ==> !o.TeamAdd?
    ensures TeamOps(ops) == []
  {
    if ops != [] {
      assert ops[0] in ops;
      TeamOpsNone(ops[1..]);
    }
  }

  lemma TeamOpsOfTeamPart(a: Attributed, team: seq<(bool, Stat)>)
    ensures TeamOps(TeamPart(a, team)) == TeamPart(a, team)
    decreases |team|
  {
    var tp := TeamPart(a, team);
    if team != [] {
      assert tp == [tp[0]] + TeamPart(a, team[1..]);
      TeamOpsConcat([tp[0]], TeamPart(a, team[1..]));
      TeamOpsOfTeamPart(a, team[1..]);
    }
  }

  lemma HandlerTeamOps(ev: Event, a: Attributed, c: Carried, h: Handler)
    ensures TeamOps(HandlerOps(ev, a, c, h)) == TeamPart(a, h.team)
  {
    var rest := if h.player == [] then []
                else if c.pl.None? then [Fail(UnboundLocal)]
                else PlayerPart(c.pl.value, h, ev.time);
    TeamOpsConcat(TeamPart(a, h.team), rest);
    TeamOpsOfTeamPart(a, h.team);
    TeamOpsNone(rest);
  }

  /** The team counters of a non-goal event of the simple kinds are exactly its handler's
      team columns, in order, addressed with the (possibly swapped) team names and the
      nominal rounds. */
  lemma HandlerTeamCounters(ev: Event, a: Attributed, c: Carried, second: Option<PlayerRef>, h: Handler)
    requires ev.isGoal != 1 && ev.eventType != 1 && ev.eventType != 7
    requires HandlerOf(ev.eventType) == Some(h)
    ensures TeamOps(Blocks(ev, a, c, second)) == TeamPart(a, h.team)
  {
    var p := PassOps(ev, second);
    var k := KindOps(ev, a, c);
    assert k == HandlerOps(ev, a, c, h);
    PlainBlocks(ev, a, c, second);
    TeamOpsConcat(p, k);
    TeamOpsNone(p);
    HandlerTeamOps(ev, a, c, h);
  }

  /** Without a goal, the blocks are the pass block, which never raises and only credits a
      player, then the kind block. */
  lemma PlainBlocks(ev: Event, a: Attributed, c: Carried, second: Option<PlayerRef>)
    requires ev.isGoal != 1
    ensures forall o :: o in PassOps(ev, second) ==> o.PlayerAdd?
    ensures Blocks(ev, a, c, second) == PassOps(ev, second) + KindOps(ev, a, c)
  {
    var p := PassOps(ev, second);
    assert GoalOps(ev, a, c) == [] && Then([], p) == p;
    assert !Failed(p);
  }

  /** The team counters of a handler kind with two team columns. */
  lemma TwoTeamCounters(ev: Event, a: Attributed, c: Carried, second: Option<PlayerRef>, x: (bool, Stat), y: (bool, Stat))
    requires ev.isGoal != 1 && ev.eventType != 1 && ev.eventType != 7
    requires HandlerOf(ev.eventType).Some? && HandlerOf(ev.eventType).value.team == [x, y]
    ensures TeamOps(Blocks(ev, a, c, second)) ==
              [TeamAdd(if x.0 then a.opTeam else a.evTeam, if x.0 then a.opRound else a.evRound, x.1, None),
               TeamAdd(if y.0 then a.opTeam else a.evTeam, if y.0 then a.opRound else a.evRound, y.1, None)]
  {
    HandlerTeamCounters(ev, a, c, second, HandlerOf(ev.eventType).value);
    TeamPartTwo(a, x, y);
  }

  /** The team counters of a handler kind with one team column. */
  lemma OneTeamCounter(ev: Event, a: Attributed, c: Carried, second: Option<PlayerRef>, x: (bool, Stat))
    requires ev.isGoal != 1 && ev.eventType != 1 && ev.eventType != 7
    requires HandlerOf(ev.eventType).Some? && HandlerOf(ev.eventType).value.team == [x]
    ensures TeamOps(Blocks(ev, a, c, second)) ==
              [TeamAdd(if x.0 then a.opTeam else a.evTeam, if x.0 then a.opRound else a.evRound, x.1, None)]
  {
    HandlerTeamCounters(ev, a, c, second, HandlerOf(ev.eventType).value);
    TeamPartOne(a, x);
  }

  /** Corner, second yellow, straight red, handball and penalty, as team counters: a corner is
      won by the event team and conceded by the opponent, a second yellow adds a yellow and a
      red card, a straight red only a red card, a handball no team counter, and a penalty is
      conceded by the event team and won by the opponent. */
  lemma TeamCounters(ctx: MatchCtx, ev: Event, c: Carried, a: Attributed, c1: Carried)
    requires Attributes(ctx, ev, c, a, c1) && ev.isGoal != 1
    ensures var ts := TeamOps(EventOps(ctx, ev, c).0);
            && (ev.eventType == 2 ==> ts == [TeamAdd(a.evTeam, a.evRound, CornersWon, None),
                                             TeamAdd(a.opTeam, a.opRound, CornersConceded, None)])
            && (ev.eventType == 5 ==> ts == [TeamAdd(a.evTeam, a.evRound, YellowCards, None),
                                             TeamAdd(a.evTeam, a.evRound, RedCards, None)])
            && (ev.eventType == 6 ==> ts == [TeamAdd(a.evTeam, a.evRound, RedCards, None)])
            && (ev.eventType == 10 ==> ts == [])
            && (ev.eventType == 11 ==> ts == [TeamAdd(a.evTeam, a.evRound, PenaltiesConceded, None),
                                              TeamAdd(a.opTeam, a.opRound, PenaltiesWon, None)])
  {
    EventOpsParts(ctx, ev, c, a, c1);
    BlocksTeamCounters(ev, a, c1, SecondRef(ctx, a).value);
  }

  /** TeamCounters on the three blocks of an event. */
  lemma BlocksTeamCounters(ev: Event, a: Attributed, c: Carried, second: Option<PlayerRef>)
    requires ev.isGoal != 1
    ensures var ts := TeamOps(Blocks(ev, a, c, second));
            && (ev.eventType == 2 ==> ts == [TeamAdd(a.evTeam, a.evRound, CornersWon, None),
                                             TeamAdd(a.opTeam, a.opRound, CornersConceded, None)])
            && (ev.eventType == 5 ==> ts == [TeamAdd(a.evTeam, a.evRound, YellowCards, None),
                                             TeamAdd(a.evTeam, a.evRound, RedCards, None)])
            && (ev.eventType == 6 ==> ts == [TeamAdd(a.evTeam, a.evRound, RedCards, None)])
            && (ev.eventType == 10 ==> ts == [])
            && (ev.eventType == 11 ==> ts == [TeamAdd(a.evTeam, a.evRound, PenaltiesConceded, None),
                                              TeamAdd(a.opTeam, a.opRound, PenaltiesWon, None)])
  {
    if ev.eventType == 2 {
      TwoTeamCounters(ev, a, c, second, (false, CornersWon), (true, CornersConceded));
    } else if ev.eventType == 5 {
      TwoTeamCounters(ev, a, c, second, (false, YellowCards), (false, RedCards));
    } else if ev.eventType == 6 {
      OneTeamCounter(ev, a, c, second, (false, RedCards));
    } else if ev.eventType == 10 {
      HandlerTeamCounters(ev, a, c, second, HandlerOf(10).value);
    } else if ev.eventType == 11 {
      TwoTeamCounters(ev, a, c, second, (false, PenaltiesConceded), (true, PenaltiesWon));
    }
  }

  lemma TeamPartOne(a: Attributed, x: (bool, Stat))
    ensures TeamPart(a, [x]) ==
              [TeamAdd(if x.0 then a.opTeam else a.evTeam, if x.0 then a.opRound else a.evRound, x.1, None)]
  {
  }

  lemma TeamPartTwo(a: Attributed, x: (bool, Stat), y: (bool, Stat))
    ensures TeamPart(a, [x, y]) ==
              [TeamAdd(if x.0 then a.opTeam else a.evTeam, if x.0 then a.opRound else a.evRound, x.1, None),
               TeamAdd(if y.0 then a.opTeam else a.evTeam, if y.0 then a.opRound else a.evRound, y.1, None)]
  {
  }

  /** Without the player local assigned, a kind that reads it raises. */
  lemma HandlerNeedsPlayer(ev: Event, a: Attributed, c: Carried, h: Handler)
    requires h.player != []
    ensures c.pl.None? ==> Failed(HandlerOps(ev, a, c, h))
  {
    if c.pl.None? {
      assert Fail(UnboundLocal) in HandlerOps(ev, a, c, h);
    }
  }

  /** Without both substitution locals assigned, a substitution raises. */
  lemma SubstitutionNeedsPlayers(ev: Event, a: Attributed, c: Carried)
    ensures c.plIn.None? || c.plOut.None? ==> Failed(SubstitutionOps(ev, a, c))
  {
    if c.plIn.None? || c.plOut.None? {
      assert Fail(UnboundLocal) in SubstitutionOps(ev, a, c);
    }
  }

  /** Both red cards (types 5 and 6) that go through credit the card to the player, mark his
      exit and record his exit minute with the time rule. */
  lemma CardEffects(ctx: MatchCtx, ev: Event, c: Carried, a: Attributed, c1: Carried)
    requires Attributes(ctx, ev, c, a, c1) && (ev.eventType == 5 || ev.eventType == 6)
    requires !Failed(EventOps(ctx, ev, c).0)
    ensures c1.pl.Some?
    ensures var ops := EventOps(ctx, ev, c).0;
            && PlayerAdd(c1.pl.value, if ev.eventType == 5 then SecondYellowCard else StraightRedCard, None) in ops
            && PlayerAdd(c1.pl.value, SubsOut, None) in ops
            && PlayerTime(c1.pl.value, ev.time) in ops
  {
    EventOpsParts(ctx, ev, c, a, c1);
    var g, p, k := GoalOps(ev, a, c1), PassOps(ev, SecondRef(ctx, a).value), KindOps(ev, a, c1);
    ThenParts(g, p, k);
    var h := KindIsHandler(ev, a, c1);
    CardOps(ev, a, c1, h);
  }

  /** An event kind other than a shot or a substitution runs its handler. */
  lemma KindIsHandler(ev: Event, a: Attributed, c: Carried) returns (h: Handler)
    requires ev.eventType != 1 && ev.eventType != 7 && HandlerOf(ev.eventType).Some?
    ensures HandlerOf(ev.eventType) == Some(h) && KindOps(ev, a, c) == HandlerOps(ev, a, c, h)
  {
    h := HandlerOf(ev.eventType).value;
  }

  /** The red-card handlers' own operations: the card, the exit and the exit minute. */
  lemma CardOps(ev: Event, a: Attributed, c: Carried, h: Handler)
    requires (ev.eventType == 5 || ev.eventType == 6) && HandlerOf(ev.eventType) == Some(h)
    requires !Failed(HandlerOps(ev, a, c, h))
    ensures c.pl.Some?
    ensures var ops := HandlerOps(ev, a, c, h);
            && PlayerAdd(c.pl.value, if ev.eventType == 5 then SecondYellowCard else StraightRedCard, None) in ops
            && PlayerAdd(c.pl.value, SubsOut, None) in ops
            && PlayerTime(c.pl.value, ev.time) in ops
  {
    HandlerNeedsPlayer(ev, a, c, h);
    var pp := PlayerPart(c.pl.value, h, ev.time);
    var k := HandlerOps(ev, a, c, h);
    assert k == TeamPart(a, h.team) + pp;
    assert pp[0] in k && pp[1] in k && pp[2] in k;
  }

  lemma SubstitutionBlocks(ev: Event, a: Attributed, c: Carried, second: Option<PlayerRef>)
    requires ev.eventType == 7 && !Failed(Blocks(ev, a, c, second))
    ensures c.plIn.Some? && c.plOut.Some?
    ensures var ops := Blocks(ev, a, c, second);
            && PlayerAdd(c.plIn.value, SubsIn, None) in ops && PlayerTime(c.plIn.value, ev.time) in ops
            && PlayerAdd(c.plOut.value, SubsOut, None) in ops && PlayerTime(c.plOut.value, ev.time) in ops
            && (PlayerAdd(c.plOut.value, HasInjured, None) in ops <==> Contains(ev.text, "injur"))
  {
    var g, p, k := GoalOps(ev, a, c), PassOps(ev, second), KindOps(ev, a, c);
    ThenParts(g, p, k);
    assert k == SubstitutionOps(ev, a, c);
    SubstitutionContent(ev, a, c);
    var x := PlayerAdd(c.plOut.value, HasInjured, None);
    assert x !in p;
    GoalOpsNoInjury(ev, a, c, c.plOut.value);
  }

  /** The substitution's own operations, the injury mark exactly when "injur" is mentioned. */
  lemma SubstitutionContent(ev: Event, a: Attributed, c: Carried)
    requires !Failed(SubstitutionOps(ev, a, c))
    ensures c.plIn.Some? && c.plOut.Some?
    ensures var ops := SubstitutionOps(ev, a, c);
            && PlayerAdd(c.plIn.value, SubsIn, None) in ops && PlayerTime(c.plIn.value, ev.time) in ops
            && PlayerAdd(c.plOut.value, SubsOut, None) in ops && PlayerTime(c.plOut.value, ev.time) in ops
            && (PlayerAdd(c.plOut.value, HasInjured, None) in ops <==> Contains(ev.text, "injur"))
  {
    SubstitutionNeedsPlayers(ev, a, c);
  }

  /** The goal block never marks a player injured. */
  lemma GoalOpsNoInjury(ev: Event, a: Attributed, c: Carried, pl: PlayerRef)
    ensures PlayerAdd(pl, HasInjured, None) !in GoalOps(ev, a, c)
  {
    if ev.isGoal == 1 {
      var head := [TeamAdd(a.evTeam, a.evRound, GoalScored, Some(a.evSide)),
                   TeamAdd(a.opTeam, a.opRound, GoalConceded, Some(Opposite(a.evSide))),
                   TeamAdd(a.evTeam, a.evRound, AttemptsShots, None)];
      var pre := Then(head + BucketOps(ev, a), [KeeperCredit(a.opTeam, false, true)]);
      assert forall o :: o in pre ==> !o.PlayerAdd?;
    }
  }

  /** A substitution that goes through enters the incoming player and his minute, exits the
      outgoing player and his minute, and marks the outgoing player injured exactly when the
      commentary contains "injur". */
  lemma SubstitutionEffects(ctx: MatchCtx, ev: Event, c: Carried, a: Attributed, c1: Carried)
    requires Attributes(ctx, ev, c, a, c1) && ev.eventType == 7
    requires !Failed(EventOps(ctx, ev, c).0)
    ensures c1.plIn.Some? && c1.plOut.Some?
    ensures var ops := EventOps(ctx, ev, c).0;
            && PlayerAdd(c1.plIn.value, SubsIn, None) in ops && PlayerTime(c1.plIn.value, ev.time) in ops
            && PlayerAdd(c1.plOut.value, SubsOut, None) in ops && PlayerTime(c1.plOut.value, ev.time) in ops
            && (PlayerAdd(c1.plOut.value, HasInjured, None) in ops <==> Contains(ev.text, "injur"))
  {
    EventOpsParts(ctx, ev, c, a, c1);
    SubstitutionBlocks(ev, a, c1, SecondRef(ctx, a).value);
  }

  /** A shot on target that goes through adds the team's shots on target; an outfield
      shooter also gets his own and the opposing keeper a save (when it is not a goal) or
      nothing (when it is); a goalkeeper shooting gets no shot on target. */
  lemma ShotOnTarget(ctx: MatchCtx, ev: Event, c: Carried, a: Attributed, c1: Carried)
    requires Attributes(ctx, ev, c, a, c1) && ev.eventType == 1 && ev.shotOutcome == Some(1)
    requires !Failed(EventOps(ctx, ev, c).0)
    ensures c1.pl.Some?
    ensures var ops := EventOps(ctx, ev, c).0;
            && TeamAdd(a.evTeam, a.evRound, ShotsOnTarget, None) in ops
            && (!c1.pl.value.keeper ==> PlayerAdd(c1.pl.value, ShotsOnTarget, None) in ops
                                        && KeeperCredit(a.opTeam, ev.isGoal == 0, false) in ops)
  {
    EventOpsParts(ctx, ev, c, a, c1);
    var g, p, k := GoalOps(ev, a, c1), PassOps(ev, SecondRef(ctx, a).value), KindOps(ev, a, c1);
    ThenParts(g, p, k);
    ShotNeedsPlayer(ev, a, c1);
    var pl := c1.pl.value;
    assert k == ShotOps(ev, a, pl);
    var b := BucketOps(ev, a);
    var x := TeamAdd(a.evTeam, a.evRound, AttemptsShots, None);
    var shot := [TeamAdd(a.evTeam, a.evRound, ShotsOnTarget, None)] +
                (if pl.keeper then []
                 else [PlayerAdd(pl, ShotsOnTarget, None), KeeperCredit(a.opTeam, ev.isGoal == 0, false)]);
    assert k == Outfield(pl, AttemptsShots, None) + Then([x] + b, shot);
  }
}
