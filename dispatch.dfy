/** Applying the dispatch's operations to the per-match tables, and the event loop of
    team_stats (database_build.py:353-595): each event's operations run in order, the first
    exception ends the match. */
module Dispatch {
  import opened Common
  import opened Schema
  import opened Feed
  import opened Ledger
  import opened Records
  import opened Attribution
  import opened Keeper

  /** The table a player's rows live in (`db`, `db2`, `plin_db`, `plout_db`). */
  function RefTable(p: PlayerRef): TableId {
    if p.keeper then KeeperTable else PlayerTable
  }

  /** The record an operation addresses. */
  function RefKey(ctx: MatchCtx, p: PlayerRef): Key {
    Key(p.id, ctx.season, p.round)
  }

  /** One operation on the per-match tables: an append_value call, a keeper_update call, or
      the exception. */
  function ApplyOp(u: Tables, ctx: MatchCtx, op: Op): (r: Result<Tables>)
    ensures op.Fail? ==> r == Err(op.error)
  {
    match op
    case TeamAdd(team, round, col, side) =>
      AppendValue(u, TeamTable, Key(team, ctx.season, round), col, side, 1, false)
    case PlayerAdd(p, col, side) => AppendValue(u, RefTable(p), RefKey(ctx, p), col, side, 1, false)
    case PlayerTime(p, minute) => AppendValue(u, RefTable(p), RefKey(ctx, p), TimePlayed, None, minute, true)
    case KeeperCredit(team, saved, goalCon) => KeeperUpdate(u, ctx, team, saved, goalCon)
    case Fail(e) => Err(e)
  }

  /** The operations in order; the first error stops the rest. */
  function ApplyOps(u: Tables, ctx: MatchCtx, ops: seq<Op>): Result<Tables>
    decreases |ops|
  {
    if ops == [] then Ok(u)
    else
      var u1 :- ApplyOp(u, ctx, ops[0]);
      ApplyOps(u1, ctx, ops[1..])
  }

  /** The event loop: every event's operations, with the stale locals carried along. */
  function RunEvents(u: Tables, ctx: MatchCtx, evs: seq<Event>, c: Carried): Result<Tables>
    decreases |evs|
  {
    if evs == [] then Ok(u)
    else
      var (ops, c1) := EventOps(ctx, evs[0], c);
      var u1 :- ApplyOps(u, ctx, ops);
      RunEvents(u1, ctx, evs[1..], c1)
  }

  /** A list that raises never completes. */
  lemma {:induction false} FailedOpsFail(u: Tables, ctx: MatchCtx, ops: seq<Op>)
    requires Failed(ops)
    ensures ApplyOps(u, ctx, ops).Err?
    decreases |ops|
  {
    if !ops[0].Fail? {
      var o :| o in ops && o.Fail?;
      assert o in ops[1..];
      var r := ApplyOp(u, ctx, ops[0]);
      if r.Ok? {
        FailedOpsFail(r.value, ctx, ops[1..]);
      }
    }
  }

  /** A team counter update adds 1 to its column (and to the side split) of the team's row
      for the round, and changes nothing else. */
  lemma TeamAddAddsOne(u: Tables, ctx: MatchCtx, team: string, round: int, col: Stat, side: Option<Side>)
    requires ApplyOp(u, ctx, TeamAdd(team, round, col, side)).Ok?
    ensures var v := ApplyOp(u, ctx, TeamAdd(team, round, col, side)).value;
            && v.players == u.players && v.keepers == u.keepers && |v.teams| == |u.teams|
            && forall i, c :: 0 <= i < |u.teams| ==>
                 Cell(v.teams[i], c) == Cell(u.teams[i], c) +
                   (if u.teams[i].key == Key(team, ctx.season, round) && c == col then 1 else 0) +
                   (if u.teams[i].key == Key(team, ctx.season, round)
                       && side.Some? && Split(col, side.value) == Some(c) then 1 else 0)
  {
    TeamAddIsAppend(u, ctx, team, round, col, side);
    TeamAppendOthers(u, Key(team, ctx.season, round), col, side);
    TeamAppendCells(u, Key(team, ctx.season, round), col, side);
  }

  /** append_value on `teams` leaves the player tables alone. */
  lemma TeamAppendOthers(u: Tables, k: Key, col: Stat, side: Option<Side>)
    requires AppendValue(u, TeamTable, k, col, side, 1, false).Ok?
    ensures var v := AppendValue(u, TeamTable, k, col, side, 1, false).value;
            v.players == u.players && v.keepers == u.keepers && |v.teams| == |u.teams|
  {
    var v := AppendValue(u, TeamTable, k, col, side, 1, false).value;
    assert v.Of(PlayerTable) == u.Of(PlayerTable) && v.Of(KeeperTable) == u.Of(KeeperTable);
  }

  lemma TeamAppendCells(u: Tables, k: Key, col: Stat, side: Option<Side>)
    requires AppendValue(u, TeamTable, k, col, side, 1, false).Ok?
    ensures var v := AppendValue(u, TeamTable, k, col, side, 1, false).value;
            forall i, c :: 0 <= i < |u.teams| && i < |v.teams| ==>
              Cell(v.teams[i], c) == Cell(u.teams[i], c) +
                (if u.teams[i].key == k && c == col then 1 else 0) +
                (if u.teams[i].key == k && side.Some? && Split(col, side.value) == Some(c) then 1 else 0)
  {
    AppendValueAdds(u, TeamTable, k, col, side, 1);
  }

  lemma TeamAddIsAppend(u: Tables, ctx: MatchCtx, team: string, round: int, col: Stat, side: Option<Side>)
    ensures ApplyOp(u, ctx, TeamAdd(team, round, col, side))
            == AppendValue(u, TeamTable, Key(team, ctx.season, round), col, side, 1, false)
  {
  }

  /** An operation that goes through changes counter cells only, and keeps every row
      carrying its table's columns. */
  lemma ApplyOpKeepsShape(u: Tables, ctx: MatchCtx, op: Op)
    requires u.Valid() && ApplyOp(u, ctx, op).Ok?
    ensures Reshaped(u, ApplyOp(u, ctx, op).value) && ApplyOp(u, ctx, op).value.Valid()
  {
    match op
    case TeamAdd(team, round, col, side) =>
      assert ApplyOp(u, ctx, op) == AppendValue(u, TeamTable, Key(team, ctx.season, round), col, side, 1, false);
      AppendValueKeepsValid(u, TeamTable, Key(team, ctx.season, round), col, side, 1, false);
    case PlayerAdd(p, col, side) =>
      assert ApplyOp(u, ctx, op) == AppendValue(u, RefTable(p), RefKey(ctx, p), col, side, 1, false);
      AppendValueKeepsValid(u, RefTable(p), RefKey(ctx, p), col, side, 1, false);
    case PlayerTime(p, minute) =>
      assert ApplyOp(u, ctx, op) == AppendValue(u, RefTable(p), RefKey(ctx, p), TimePlayed, None, minute, true);
      AppendValueKeepsValid(u, RefTable(p), RefKey(ctx, p), TimePlayed, None, minute, true);
    case KeeperCredit(team, saved, goalCon) =>
      assert ApplyOp(u, ctx, op) == KeeperUpdate(u, ctx, team, saved, goalCon);
      KeeperUpdateKeepsValid(u, ctx, team, saved, goalCon);
  }

  lemma {:induction false} ApplyOpsKeepsShape(u: Tables, ctx: MatchCtx, ops: seq<Op>)
    requires u.Valid() && ApplyOps(u, ctx, ops).Ok?
    ensures Reshaped(u, ApplyOps(u, ctx, ops).value) && ApplyOps(u, ctx, ops).value.Valid()
    decreases |ops|
  {
    if ops != [] {
      ApplyOpKeepsShape(u, ctx, ops[0]);
      var u1 := ApplyOp(u, ctx, ops[0]).value;
      ApplyOpsKeepsShape(u1, ctx, ops[1..]);
      ReshapedTrans(u, u1, ApplyOps(u1, ctx, ops[1..]).value);
    }
  }

  /** The events change counter cells only: no row appears, disappears or changes its key. */
  lemma {:induction false} RunEventsKeepsShape(u: Tables, ctx: MatchCtx, evs: seq<Event>, c: Carried)
    requires u.Valid() && RunEvents(u, ctx, evs, c).Ok?
    ensures Reshaped(u, RunEvents(u, ctx, evs, c).value) && RunEvents(u, ctx, evs, c).value.Valid()
    decreases |evs|
  {
    if evs != [] {
      var (ops, c1) := EventOps(ctx, evs[0], c);
      ApplyOpsKeepsShape(u, ctx, ops);
      var u1 := ApplyOps(u, ctx, ops).value;
      RunEventsKeepsShape(u1, ctx, evs[1..], c1);
      ReshapedTrans(u, u1, RunEvents(u1, ctx, evs[1..], c1).value);
    }
  }

  /** One operation, in place. As with keeper_update, after an error only the error is
      promised. */
  method ApplyOpIn(m: MatchTables, ctx: MatchCtx, op: Op) returns (err: Option<Error>)
    modifies m
    requires m.Valid()
    ensures m.Valid()
    ensures var r := ApplyOp(old(m.Snapshot()), ctx, op);
            && (r.Ok? ==> err == None && m.Snapshot() == r.value)
            && (r.Err? ==> err == Some(r.error))
  {
    match op {
      case TeamAdd(team, round, col, side) =>
        err := m.Append(TeamTable, Key(team, ctx.season, round), col, side, 1, false);
      case PlayerAdd(p, col, side) =>
        err := m.Append(RefTable(p), RefKey(ctx, p), col, side, 1, false);
      case PlayerTime(p, minute) =>
        err := m.Append(RefTable(p), RefKey(ctx, p), TimePlayed, None, minute, true);
      case KeeperCredit(team, saved, goalCon) =>
        err := KeeperUpdateIn(m, ctx, team, saved, goalCon);
      case Fail(e) =>
        err := Some(e);
    }
  }

  /** One event's operations, in place, stopping at the first error. */
  method ApplyOpsIn(m: MatchTables, ctx: MatchCtx, ops: seq<Op>) returns (err: Option<Error>)
    modifies m
    requires m.Valid()
    ensures m.Valid()
    ensures var r := ApplyOps(old(m.Snapshot()), ctx, ops);
            && (r.Ok? ==> err == None && m.Snapshot() == r.value)
            && (r.Err? ==> err == Some(r.error))
  {
    var j := 0;
    while j < |ops|
      invariant 0 <= j <= |ops|
      invariant m.Valid()
      invariant ApplyOps(old(m.Snapshot()), ctx, ops) == ApplyOps(m.Snapshot(), ctx, ops[j..])
    {
      assert ops[j..][1..] == ops[j + 1..];
      err := ApplyOpIn(m, ctx, ops[j]);
      if err.Some? {
        return;
      }
      j := j + 1;
    }
    return None;
  }

  /** The `for _, ev in evs.iterrows()` loop of team_stats, in place. */
  method RunEventsIn(m: MatchTables, ctx: MatchCtx, evs: seq<Event>) returns (err: Option<Error>)
    modifies m
    requires m.Valid()
    ensures m.Valid()
    ensures var r := RunEvents(old(m.Snapshot()), ctx, evs, Fresh());
            && (r.Ok? ==> err == None && m.Snapshot() == r.value)
            && (r.Err? ==> err == Some(r.error))
  {
    var c := Fresh();
    var i := 0;
    while i < |evs|
      invariant 0 <= i <= |evs|
      invariant m.Valid()
      invariant RunEvents(old(m.Snapshot()), ctx, evs, Fresh()) == RunEvents(m.Snapshot(), ctx, evs[i..], c)
    {
      assert evs[i..][1..] == evs[i + 1..];
      var (ops, c1) := EventOps(ctx, evs[i], c);
      err := ApplyOpsIn(m, ctx, ops);
      if err.Some? {
        return;
      }
      c := c1;
      i := i + 1;
    }
    return None;
  }
}
