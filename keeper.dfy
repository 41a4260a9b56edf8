/** Goalkeeper attribution, keeper_update (database_build.py:258-298): a goal conceded or a
    shot saved is credited to the keeper on the pitch of the conceding team. That is the
    starting keeper (slot p1) while he has not been substituted; otherwise every substitute
    goalkeeper who came on and did not go off, scanning the substitute slots s1..s12 up to the
    first empty one. */
module Keeper {
  import opened Common
  import opened Schema
  import opened Feed
  import opened Ledger
  import opened Records
  import opened Attribution

  /** What one credit adds to column `c`: with goal_con, goal_conceded, its side split and
      shots_on_target gain 1; with saved, shots_saved and shots_on_target gain 1. */
  function Gain(c: Stat, side: Side, saved: bool, goalCon: bool): int {
    (if goalCon && (c == GoalConceded || c == GoalConcededAt(side) || c == ShotsOnTarget) then 1 else 0)
    + (if saved && (c == ShotsSaved || c == ShotsOnTarget) then 1 else 0)
  }

  /** The appends of one credit to the keeper rows keyed `k` (database_build.py:266-275). */
  function Credit(rows: seq<Row>, k: Key, side: Side, saved: bool, goalCon: bool): (rs: seq<Row>)
    ensures SameShape(rows, rs)
    ensures forall i, c :: 0 <= i < |rows| ==>
              Cell(rs[i], c) == Cell(rows[i], c) + (if rows[i].key == k then Gain(c, side, saved, goalCon) else 0)
  {
    var r1 := if goalCon then AddTo(AddTo(AddTo(rows, k, GoalConceded, 1), k, GoalConcededAt(side), 1),
                                    k, ShotsOnTarget, 1)
              else rows;
    if saved then AddTo(AddTo(r1, k, ShotsSaved, 1), k, ShotsOnTarget, 1) else r1
  }

  lemma KeeperCreditColumns(side: Side)
    ensures GoalConceded in ColumnSet(KeeperTable) && GoalConcededAt(side) in ColumnSet(KeeperTable)
    ensures ShotsOnTarget in ColumnSet(KeeperTable) && ShotsSaved in ColumnSet(KeeperTable)
  {
    KeeperCreditAt();
    ColumnAt(KeeperTable, 7, GoalConceded);
    ColumnAt(KeeperTable, if side == Home then 8 else 9, GoalConcededAt(side));
    ColumnAt(KeeperTable, 13, ShotsOnTarget);
    ColumnAt(KeeperTable, 6, ShotsSaved);
  }

  lemma CreditKeepsWellFormed(rows: seq<Row>, k: Key, side: Side, saved: bool, goalCon: bool)
    requires AllWellFormed(KeeperTable, rows)
    ensures AllWellFormed(KeeperTable, Credit(rows, k, side, saved, goalCon))
  {
    KeeperCreditColumns(side);
    var r1 := rows;
    if goalCon {
      AddToKeepsWellFormed(KeeperTable, rows, k, GoalConceded, 1);
      var a := AddTo(rows, k, GoalConceded, 1);
      AddToKeepsWellFormed(KeeperTable, a, k, GoalConcededAt(side), 1);
      var b := AddTo(a, k, GoalConcededAt(side), 1);
      AddToKeepsWellFormed(KeeperTable, b, k, ShotsOnTarget, 1);
      r1 := AddTo(b, k, ShotsOnTarget, 1);
    }
    if saved {
      AddToKeepsWellFormed(KeeperTable, r1, k, ShotsSaved, 1);
      AddToKeepsWellFormed(KeeperTable, AddTo(r1, k, ShotsSaved, 1), k, ShotsOnTarget, 1);
    }
  }

  /** `l_team`: the conceding team's side is home exactly when it is the lineup's home team. */
  function KeeperSide(ctx: MatchCtx, team: string): Side {
    if team == ctx.lineup.homeTeam then Home else Away
  }

  /** The starting keeper's key: name_to_url and player_rounds looked up for the p1 slot's
      name. An empty p1 slot reads NaN, which no lookup table has: a KeyError. */
  function StarterKey(ctx: MatchCtx, team: string): (r: Result<Key>)
    ensures r.Err? ==> r.error == KeyError
  {
    var slot := Slot(KeeperSide(ctx, team), true, 1);
    if slot !in ctx.lineup.names then Err(KeyError)
    else
      var key := (ctx.lineup.names[slot], ctx.season, team);
      if key !in ctx.reg.nameToUrl || key !in ctx.rounds then Err(KeyError)
      else Ok(Key(ctx.reg.nameToUrl[key], ctx.season, ctx.rounds[key]))
  }

  /** A keeper row's `subs_in`/`subs_out` as `.values[0]` reads them: the first row keyed `k`. */
  function FirstCell(rows: seq<Row>, k: Key, c: Stat): int
    requires k in KeysOf(rows)
  {
    Cell(rows[FirstWith(rows, k)], c)
  }

  /** On the pitch at the end: came on and did not go off. */
  predicate OnPitch(rows: seq<Row>, k: Key)
    requires k in KeysOf(rows)
  {
    FirstCell(rows, k, SubsIn) != 0 && FirstCell(rows, k, SubsOut) == 0
  }

  /** What one substitute slot yields, before any table is read. */
  datatype SubSlot = Stop | Outfielder(id: string) | SubKeeper(id: string, k: Key)

  /** Substitute slot `i` (database_build.py:278-288): an empty slot ends the scan; the id is
      name_to_url's, or the stale `pl_id` of an earlier slot when name_to_url lacks the name
      (UnboundLocalError before any assignment); player_pos and player_rounds are then read. */
  function SubStep(ctx: MatchCtx, team: string, i: int, stale: Option<string>): (r: Result<SubSlot>)
    ensures r.Ok? && r.value.SubKeeper? ==> r.value.k.ident == r.value.id
  {
    var slot := Slot(KeeperSide(ctx, team), false, i);
    if i > 12 || slot !in ctx.lineup.names then Ok(Stop)
    else
      var key := (ctx.lineup.names[slot], ctx.season, team);
      var id := if key in ctx.reg.nameToUrl then Some(ctx.reg.nameToUrl[key]) else stale;
      if id.None? then Err(UnboundLocal)
      else if id.value !in ctx.reg.playerPos then Err(KeyError)
      else if ctx.reg.playerPos[id.value] != Goalkeeper then Ok(Outfielder(id.value))
      else if key !in ctx.rounds then Err(KeyError)
      else Ok(SubKeeper(id.value, Key(id.value, ctx.season, ctx.rounds[key])))
  }

  /** The loop over s1..s12 (database_build.py:277-298) from slot `i` on, crediting as it
      goes; `stale` is the loop's `pl_id` local. */
  function ScanSubs(u: Tables, ctx: MatchCtx, team: string, saved: bool, goalCon: bool, i: int,
                    stale: Option<string>): Result<Tables>
    decreases 13 - i
  {
    var st :- SubStep(ctx, team, i, stale);
    match st
    case Stop => Ok(u)
    case Outfielder(id) => ScanSubs(u, ctx, team, saved, goalCon, i + 1, Some(id))
    case SubKeeper(id, k) =>
      if k !in KeysOf(u.keepers) then Err(IndexError)
      else
        var u1 := if OnPitch(u.keepers, k)
                  then u.(keepers := Credit(u.keepers, k, KeeperSide(ctx, team), saved, goalCon))
                  else u;
        ScanSubs(u1, ctx, team, saved, goalCon, i + 1, Some(id))
  }

  /** keeper_update on the per-match tables. */
  function KeeperUpdate(u: Tables, ctx: MatchCtx, team: string, saved: bool, goalCon: bool): Result<Tables> {
    var k :- StarterKey(ctx, team);
    if k !in KeysOf(u.keepers) then Err(IndexError)
    else if FirstCell(u.keepers, k, SubsOut) == 0 then
      Ok(u.(keepers := Credit(u.keepers, k, KeeperSide(ctx, team), saved, goalCon)))
    else ScanSubs(u, ctx, team, saved, goalCon, 1, None)
  }

  /** Reference definition: the substitute keepers the scan credits, decided on the rows as
      they were before any credit. Every one of them came on and did not go off. */
  function SubKeys(rows: seq<Row>, ctx: MatchCtx, team: string, i: int, stale: Option<string>)
    : (r: Result<seq<Key>>)
    ensures r.Ok? ==> forall k :: k in r.value ==> k in KeysOf(rows) && OnPitch(rows, k)
    decreases 13 - i
  {
    var st :- SubStep(ctx, team, i, stale);
    match st
    case Stop => Ok([])
    case Outfielder(id) => SubKeys(rows, ctx, team, i + 1, Some(id))
    case SubKeeper(id, k) =>
      if k !in KeysOf(rows) then Err(IndexError)
      else
        var rest :- SubKeys(rows, ctx, team, i + 1, Some(id));
        Ok((if OnPitch(rows, k) then [k] else []) + rest)
  }

  /** The keepers credited: the starter while not substituted, else the substitutes on the
      pitch. The starter is among them exactly when his `subs_out` is 0. */
  function Credited(rows: seq<Row>, ctx: MatchCtx, team: string): (r: Result<seq<Key>>)
    ensures r.Ok? ==> StarterKey(ctx, team).Ok? && StarterKey(ctx, team).value in KeysOf(rows)
    ensures r.Ok? ==> (StarterKey(ctx, team).value in r.value <==>
                       FirstCell(rows, StarterKey(ctx, team).value, SubsOut) == 0)
    ensures r.Ok? ==> forall k :: k in r.value ==> k in KeysOf(rows)
  {
    var k :- StarterKey(ctx, team);
    if k !in KeysOf(rows) then Err(IndexError)
    else if FirstCell(rows, k, SubsOut) == 0 then Ok([k])
    else SubKeys(rows, ctx, team, 1, None)
  }

  /** One credit per key, in order. */
  function CreditAll(rows: seq<Row>, ks: seq<Key>, side: Side, saved: bool, goalCon: bool): (rs: seq<Row>)
    ensures SameShape(rows, rs)
    decreases |ks|
  {
    if ks == [] then rows else CreditAll(Credit(rows, ks[0], side, saved, goalCon), ks[1..], side, saved, goalCon)
  }

  /** A credit leaves every row's key, `subs_in` and `subs_out` as they were, so the scan's
      later decisions read what they would have read before it. */
  lemma CreditKeepsDecisions(rows: seq<Row>, k: Key, side: Side, saved: bool, goalCon: bool, k2: Key)
    requires k2 in KeysOf(rows)
    ensures var rs := Credit(rows, k, side, saved, goalCon);
            k2 in KeysOf(rs) && (OnPitch(rs, k2) <==> OnPitch(rows, k2))
  {
    var rs := Credit(rows, k, side, saved, goalCon);
    SameShapeFirst(rows, rs, k2);
    CreditKeepsSubs(rows, k, side, saved, goalCon, FirstWith(rows, k2));
  }

  /** A credit never touches `subs_in` or `subs_out`. */
  lemma CreditKeepsSubs(rows: seq<Row>, k: Key, side: Side, saved: bool, goalCon: bool, i: nat)
    requires i < |rows|
    ensures var rs := Credit(rows, k, side, saved, goalCon);
            Cell(rs[i], SubsIn) == Cell(rows[i], SubsIn) && Cell(rs[i], SubsOut) == Cell(rows[i], SubsOut)
  {
    assert Gain(SubsIn, side, saved, goalCon) == 0 && Gain(SubsOut, side, saved, goalCon) == 0;
  }

  lemma {:induction false} ScanIsCredits(u: Tables, ctx: MatchCtx, team: string, saved: bool,
                                         goalCon: bool, i: int, stale: Option<string>)
    ensures var ks := SubKeys(u.keepers, ctx, team, i, stale);
            && (ks.Err? ==> ScanSubs(u, ctx, team, saved, goalCon, i, stale) == Err(ks.error))
            && (ks.Ok? ==> ScanSubs(u, ctx, team, saved, goalCon, i, stale) ==
                           Ok(u.(keepers := CreditAll(u.keepers, ks.value, KeeperSide(ctx, team), saved, goalCon))))
    decreases 13 - i
  {
    var st := SubStep(ctx, team, i, stale);
    if st.Ok? && st.value.Outfielder? {
      ScanIsCredits(u, ctx, team, saved, goalCon, i + 1, Some(st.value.id));
    } else if st.Ok? && st.value.SubKeeper? && st.value.k in KeysOf(u.keepers) {
      var id, k := st.value.id, st.value.k;
      if OnPitch(u.keepers, k) {
        CreditedStep(u, ctx, team, saved, goalCon, i, stale, id, k);
      } else {
        ScanIsCredits(u, ctx, team, saved, goalCon, i + 1, Some(id));
        var rest := SubKeys(u.keepers, ctx, team, i + 1, Some(id));
        if rest.Ok? {
          assert [] + rest.value == rest.value;
        }
      }
    }
  }

  /** The step of ScanIsCredits at a substitute keeper who is credited. */
  lemma {:induction false} CreditedStep(u: Tables, ctx: MatchCtx, team: string, saved: bool,
                                        goalCon: bool, i: int, stale: Option<string>, id: string, k: Key)
    requires SubStep(ctx, team, i, stale) == Ok(SubKeeper(id, k))
    requires k in KeysOf(u.keepers) && OnPitch(u.keepers, k)
    ensures var ks := SubKeys(u.keepers, ctx, team, i, stale);
            && (ks.Err? ==> ScanSubs(u, ctx, team, saved, goalCon, i, stale) == Err(ks.error))
            && (ks.Ok? ==> ScanSubs(u, ctx, team, saved, goalCon, i, stale) ==
                           Ok(u.(keepers := CreditAll(u.keepers, ks.value, KeeperSide(ctx, team), saved, goalCon))))
    decreases 13 - i, 0
  {
    var side := KeeperSide(ctx, team);
    var r1 := Credit(u.keepers, k, side, saved, goalCon);
    var u1 := u.(keepers := r1);
    ScanIsCredits(u1, ctx, team, saved, goalCon, i + 1, Some(id));
    forall k2 | k2 in KeysOf(u.keepers)
      ensures k2 in KeysOf(r1) && (OnPitch(r1, k2) <==> OnPitch(u.keepers, k2))
    {
      CreditKeepsDecisions(u.keepers, k, side, saved, goalCon, k2);
    }
    SameShapeKeys(u.keepers, r1);
    SubKeysSameDecisions(u.keepers, r1, ctx, team, i + 1, Some(id));
    var rest := SubKeys(u.keepers, ctx, team, i + 1, Some(id));
    if rest.Ok? {
      assert ([k] + rest.value)[1..] == rest.value;
      assert CreditAll(u.keepers, [k] + rest.value, side, saved, goalCon)
          == CreditAll(r1, rest.value, side, saved, goalCon);
    }
  }

  /** Rows with the same keys and the same on-pitch status give the same scan. */
  lemma {:induction false} SubKeysSameDecisions(rows: seq<Row>, rs: seq<Row>, ctx: MatchCtx, team: string,
                                                i: int, stale: Option<string>)
    requires KeysOf(rs) == KeysOf(rows)
    requires forall k :: k in KeysOf(rows) ==> (OnPitch(rs, k) <==> OnPitch(rows, k))
    ensures SubKeys(rs, ctx, team, i, stale) == SubKeys(rows, ctx, team, i, stale)
    decreases 13 - i
  {
    var st := SubStep(ctx, team, i, stale);
    if st.Ok? && (st.value.Outfielder? || st.value.SubKeeper?) {
      SubKeysSameDecisions(rows, rs, ctx, team, i + 1, Some(st.value.id));
    }
  }

  /** keeper_update is the credit of exactly the keepers Credited names. */
  lemma KeeperUpdateIsCredits(u: Tables, ctx: MatchCtx, team: string, saved: bool, goalCon: bool)
    ensures var ks := Credited(u.keepers, ctx, team);
            && (ks.Err? ==> KeeperUpdate(u, ctx, team, saved, goalCon) == Err(ks.error))
            && (ks.Ok? ==> KeeperUpdate(u, ctx, team, saved, goalCon) ==
                           Ok(u.(keepers := CreditAll(u.keepers, ks.value, KeeperSide(ctx, team), saved, goalCon))))
  {
    var k := StarterKey(ctx, team);
    if k.Ok? && k.value in KeysOf(u.keepers) {
      if FirstCell(u.keepers, k.value, SubsOut) == 0 {
        var side := KeeperSide(ctx, team);
        assert CreditAll(u.keepers, [k.value], side, saved, goalCon)
            == CreditAll(Credit(u.keepers, k.value, side, saved, goalCon), [], side, saved, goalCon);
      } else {
        ScanIsCredits(u, ctx, team, saved, goalCon, 1, None);
      }
    }
  }

  /** How many times `k` occurs in `ks`. */
  function Count(ks: seq<Key>, k: Key): nat
    decreases |ks|
  {
    if ks == [] then 0 else (if ks[0] == k then 1 else 0) + Count(ks[1..], k)
  }

  /** Every keeper row gains the concession once per time its key is credited; nothing else
      changes. */
  lemma {:induction false} CreditAllGains(rows: seq<Row>, ks: seq<Key>, side: Side, saved: bool, goalCon: bool)
    ensures var rs := CreditAll(rows, ks, side, saved, goalCon);
            forall i, c :: 0 <= i < |rows| ==>
              Cell(rs[i], c) == Cell(rows[i], c) + Count(ks, rows[i].key) * Gain(c, side, saved, goalCon)
    decreases |ks|
  {
    if ks != [] {
      var r1 := Credit(rows, ks[0], side, saved, goalCon);
      CreditAllGains(r1, ks[1..], side, saved, goalCon);
      var rs := CreditAll(rows, ks, side, saved, goalCon);
      assert rs == CreditAll(r1, ks[1..], side, saved, goalCon);
      forall i, c | 0 <= i < |rows|
        ensures Cell(rs[i], c) == Cell(rows[i], c) + Count(ks, rows[i].key) * Gain(c, side, saved, goalCon)
      {
        assert r1[i].key == rows[i].key;
        GainStep(ks, rows[i].key, Cell(rows[i], c), Cell(r1[i], c), Cell(rs[i], c), Gain(c, side, saved, goalCon));
      }
    }
  }

  /** One credit followed by the remaining ones: the gain counted once per occurrence. */
  lemma GainStep(ks: seq<Key>, key: Key, before: int, mid: int, after: int, g: int)
    requires ks != []
    requires mid == before + (if ks[0] == key then g else 0)
    requires after == mid + Count(ks[1..], key) * g
    ensures after == before + Count(ks, key) * g
  {
    var n := Count(ks[1..], key);
    if ks[0] == key {
      assert Count(ks, key) == 1 + n;
      assert (1 + n) * g == g + n * g;
    } else {
      assert Count(ks, key) == n;
    }
  }

  /** The starter, when not substituted, is credited once and alone: his row gains the
      concession, every other keeper row and column stays as it was. */
  lemma StarterCredited(u: Tables, ctx: MatchCtx, team: string, saved: bool, goalCon: bool)
    requires StarterKey(ctx, team).Ok?
    requires StarterKey(ctx, team).value in KeysOf(u.keepers)
    requires FirstCell(u.keepers, StarterKey(ctx, team).value, SubsOut) == 0
    ensures var r := KeeperUpdate(u, ctx, team, saved, goalCon);
            && r.Ok? && r.value.teams == u.teams && r.value.players == u.players
            && forall i, c :: 0 <= i < |u.keepers| ==>
                 Cell(r.value.keepers[i], c) == Cell(u.keepers[i], c) +
                   (if u.keepers[i].key == StarterKey(ctx, team).value
                    then Gain(c, KeeperSide(ctx, team), saved, goalCon) else 0)
  {
  }

  /** Whoever is credited, only the keeper table's concession columns change. */
  lemma KeeperUpdateOnlyConcessions(u: Tables, ctx: MatchCtx, team: string, saved: bool, goalCon: bool)
    requires KeeperUpdate(u, ctx, team, saved, goalCon).Ok?
    ensures var v := KeeperUpdate(u, ctx, team, saved, goalCon).value;
            && v.teams == u.teams && v.players == u.players && SameShape(u.keepers, v.keepers)
            && forall i, c :: 0 <= i < |u.keepers| && Gain(c, KeeperSide(ctx, team), saved, goalCon) == 0 ==>
                 Cell(v.keepers[i], c) == Cell(u.keepers[i], c)
  {
    KeeperUpdateIsCredits(u, ctx, team, saved, goalCon);
    var ks := Credited(u.keepers, ctx, team).value;
    CreditAllGains(u.keepers, ks, KeeperSide(ctx, team), saved, goalCon);
  }

  lemma {:induction false} CreditAllKeepsWellFormed(rows: seq<Row>, ks: seq<Key>, side: Side, saved: bool, goalCon: bool)
    requires AllWellFormed(KeeperTable, rows)
    ensures AllWellFormed(KeeperTable, CreditAll(rows, ks, side, saved, goalCon))
    decreases |ks|
  {
    if ks != [] {
      CreditKeepsWellFormed(rows, ks[0], side, saved, goalCon);
      CreditAllKeepsWellFormed(Credit(rows, ks[0], side, saved, goalCon), ks[1..], side, saved, goalCon);
    }
  }

  lemma KeeperUpdateKeepsValid(u: Tables, ctx: MatchCtx, team: string, saved: bool, goalCon: bool)
    requires u.Valid() && KeeperUpdate(u, ctx, team, saved, goalCon).Ok?
    ensures KeeperUpdate(u, ctx, team, saved, goalCon).value.Valid()
    ensures Reshaped(u, KeeperUpdate(u, ctx, team, saved, goalCon).value)
  {
    KeeperUpdateIsCredits(u, ctx, team, saved, goalCon);
    var ks := Credited(u.keepers, ctx, team).value;
    assert AllWellFormed(KeeperTable, u.Of(KeeperTable));
    var rs := CreditAll(u.keepers, ks, KeeperSide(ctx, team), saved, goalCon);
    CreditAllKeepsWellFormed(u.keepers, ks, KeeperSide(ctx, team), saved, goalCon);
    WithKeepsValid(u, KeeperTable, rs);
    assert u.With(KeeperTable, rs) == u.(keepers := rs);
  }

  /** append_value(_goalkeepers, ..., col, id=...) for a column the keeper table has. */
  lemma AppendToKeeper(u: Tables, k: Key, col: Stat)
    requires col in ColumnSet(KeeperTable)
    ensures AppendValue(u, KeeperTable, k, col, None, 1, false) == Ok(u.(keepers := AddTo(u.keepers, k, col, 1)))
  {
  }

  /** append_value(_goalkeepers, ..., "goal_conceded", home_or_away=side, id=...). */
  lemma AppendConcededToKeeper(u: Tables, k: Key, side: Side)
    ensures AppendValue(u, KeeperTable, k, GoalConceded, Some(side), 1, false)
            == Ok(u.(keepers := AddTo(AddTo(u.keepers, k, GoalConceded, 1), k, GoalConcededAt(side), 1)))
  {
    KeeperCreditColumns(side);
    var rows := AddTo(u.keepers, k, GoalConceded, 1);
    assert Split(GoalConceded, side) == Some(GoalConcededAt(side));
    assert u.With(KeeperTable, AddTo(rows, k, GoalConcededAt(side), 1))
        == u.(keepers := AddTo(rows, k, GoalConcededAt(side), 1));
  }

  /** One credit through append_value, on the per-match tables in place. */
  method CreditIn(m: MatchTables, k: Key, side: Side, saved: bool, goalCon: bool)
    modifies m
    requires m.Valid()
    ensures m.Valid()
    ensures m.Snapshot() == old(m.Snapshot()).(keepers := Credit(old(m.Snapshot()).keepers, k, side, saved, goalCon))
  {
    KeeperCreditColumns(side);
    ghost var u := m.Snapshot();
    if goalCon {
      AppendConcededToKeeper(m.Snapshot(), k, side);
      var e1 := m.Append(KeeperTable, k, GoalConceded, Some(side), 1, false);
      AppendToKeeper(m.Snapshot(), k, ShotsOnTarget);
      var e2 := m.Append(KeeperTable, k, ShotsOnTarget, None, 1, false);
    }
    ghost var u1 := m.Snapshot();
    assert u1 == u.(keepers := if goalCon then AddTo(AddTo(AddTo(u.keepers, k, GoalConceded, 1), k, GoalConcededAt(side), 1),
                                                      k, ShotsOnTarget, 1)
                               else u.keepers);
    if saved {
      AppendToKeeper(m.Snapshot(), k, ShotsSaved);
      var e3 := m.Append(KeeperTable, k, ShotsSaved, None, 1, false);
      AppendToKeeper(m.Snapshot(), k, ShotsOnTarget);
      var e4 := m.Append(KeeperTable, k, ShotsOnTarget, None, 1, false);
    }
  }

  /** keeper_update in place. An error can come after some credits; the caller then drops
      the per-match tables, so only the error is promised. */
  method KeeperUpdateIn(m: MatchTables, ctx: MatchCtx, team: string, saved: bool, goalCon: bool)
    returns (err: Option<Error>)
    modifies m
    requires m.Valid()
    ensures m.Valid()
    ensures var r := KeeperUpdate(old(m.Snapshot()), ctx, team, saved, goalCon);
            && (r.Ok? ==> err == None && m.Snapshot() == r.value)
            && (r.Err? ==> err == Some(r.error))
  {
    var side := KeeperSide(ctx, team);
    var sk := StarterKey(ctx, team);
    if sk.Err? {
      return Some(sk.error);
    }
    var k := sk.value;
    if k !in KeysOf(m.keepers) {
      return Some(IndexError);
    }
    if FirstCell(m.keepers, k, SubsOut) == 0 {
      CreditIn(m, k, side, saved, goalCon);
      return None;
    }
    var stale: Option<string> := None;
    var i := 1;
    while i <= 12
      invariant 1 <= i <= 13
      invariant m.Valid()
      invariant KeeperUpdate(old(m.Snapshot()), ctx, team, saved, goalCon)
                == ScanSubs(m.Snapshot(), ctx, team, saved, goalCon, i, stale)
      decreases 13 - i
    {
      var st := SubStep(ctx, team, i, stale);
      if st.Err? {
        return Some(st.error);
      }
      match st.value {
        case Stop =>
          return None;
        case Outfielder(id) =>
          stale := Some(id);
        case SubKeeper(id, k2) =>
          if k2 !in KeysOf(m.keepers) {
            return Some(IndexError);
          }
          if OnPitch(m.keepers, k2) {
            CreditIn(m, k2, side, saved, goalCon);
          }
          stale := Some(id);
      }
      i := i + 1;
    }
    return None;
  }
}
