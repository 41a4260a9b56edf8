/** The two passes of postprocess over the match's player records: update_time_played
    (database_build.py:178-206) and update_injuries (database_build.py:217-255). Both walk the
    lineup columns in init_players_in_match's order and read a snapshot `row` of the record
    before writing to it. */
module Finalize {
  import opened Common
  import opened Schema
  import opened Feed
  import opened Ledger
  import opened Records
  import opened Roster
  import Dates

  /** The first record with key `k`: what `row[col].values[0]` reads. */
  function At(rows: seq<Row>, k: Key): Row
    requires k in KeysOf(rows)
  {
    rows[FirstWith(rows, k)]
  }

  /** A filled slot's record: the table of the player's position and the key (id, season,
      player_rounds entry); name_to_url, player_pos and player_rounds raise KeyError. */
  function SlotRecord(reg: Registry, l: Lineup, s: Slot, season: int, rounds: Rounds): (r: Result<(TableId, Key)>)
    requires s in l.names
    ensures r.Ok? <==> SlotPlayer(reg, l, s, season).Ok? && SlotKey(l, s, season) in rounds
    ensures r.Err? ==> r.error == KeyError
    ensures r.Ok? ==> r.value.0 != TeamTable
                      && r.value.1 == Key(reg.nameToUrl[SlotKey(l, s, season)], season, rounds[SlotKey(l, s, season)])
  {
    var (id, t) :- SlotPlayer(reg, l, s, season);
    var key := SlotKey(l, s, season);
    if key !in rounds then Err(KeyError) else Ok((t, Key(id, season, rounds[key])))
  }

  /** Sent off: a second yellow or a straight red card. */
  predicate Carded(r: Row) {
    Cell(r, SecondYellowCard) == 1 || Cell(r, StraightRedCard) == 1
  }

  // ---------------------------------------------------------------- update_time_played

  /** The first step: a player sent off after his substitution minute was recorded gets
      subs_out cleared. */
  function ClearSentOff(rows: seq<Row>, k: Key, r0: Row): (rs: seq<Row>)
    ensures SameShape(rows, rs)
  {
    if Cell(r0, SubsOut) != 0 && Carded(r0) then Assign(rows, k, SubsOut, 0) else rows
  }

  /** The minutes rule, decided on the snapshot `r0`: a starter who neither went off nor
      came on played 90; a player who came on and did not go off played 90 minus the minute
      he came on (kept in time_played by the substitution). */
  function Minutes(rows: seq<Row>, k: Key, r0: Row, starter: bool): (rs: seq<Row>)
    ensures SameShape(rows, rs)
  {
    if Cell(r0, SubsIn) == 0 && Cell(r0, SubsOut) == 0 && starter then Assign(rows, k, TimePlayed, 90)
    else if Cell(r0, SubsIn) != 0 && Cell(r0, SubsOut) == 0 then Rebase(rows, k, TimePlayed, 90)
    else rows
  }

  /** The last step: has_played is set when the record now shows minutes. */
  function MarkPlayed(rows: seq<Row>, k: Key): (rs: seq<Row>)
    ensures SameShape(rows, rs)
  {
    if k in KeysOf(rows) && Cell(At(rows, k), TimePlayed) != 0 then Assign(rows, k, HasPlayed, 1) else rows
  }

  /** update_time_played on one record: the three steps, the first two deciding on the
      snapshot taken before any write. A key with no record changes nothing. */
  function FinishTime(rows: seq<Row>, k: Key, starter: bool): (rs: seq<Row>)
    ensures SameShape(rows, rs)
  {
    if k !in KeysOf(rows) then rows
    else
      var r0 := At(rows, k);
      MarkPlayed(Minutes(ClearSentOff(rows, k, r0), k, r0, starter), k)
  }

  lemma AssignAt(rows: seq<Row>, k: Key, col: Stat, v: int)
    requires k in KeysOf(rows)
    ensures var rs := Assign(rows, k, col, v);
            && k in KeysOf(rs) && FirstWith(rs, k) == FirstWith(rows, k)
            && forall c :: Cell(At(rs, k), c) == if c == col then v else Cell(At(rows, k), c)
  {
    SameShapeFirst(rows, Assign(rows, k, col, v), k);
  }

  lemma RebaseAt(rows: seq<Row>, k: Key, col: Stat, base: int)
    requires k in KeysOf(rows)
    ensures var rs := Rebase(rows, k, col, base);
            && k in KeysOf(rs) && FirstWith(rs, k) == FirstWith(rows, k)
            && forall c :: Cell(At(rs, k), c) == if c == col then base - Cell(At(rows, k), c) else Cell(At(rows, k), c)
  {
    SameShapeFirst(rows, Rebase(rows, k, col, base), k);
  }

  lemma ClearSentOffAt(rows: seq<Row>, k: Key, r0: Row)
    requires k in KeysOf(rows)
    ensures var rs := ClearSentOff(rows, k, r0);
            && k in KeysOf(rs) && FirstWith(rs, k) == FirstWith(rows, k)
            && forall c :: Cell(At(rs, k), c) ==
                 if c == SubsOut && Cell(r0, SubsOut) != 0 && Carded(r0) then 0 else Cell(At(rows, k), c)
  {
    AssignAt(rows, k, SubsOut, 0);
  }

  lemma MinutesAt(rows: seq<Row>, k: Key, r0: Row, starter: bool)
    requires k in KeysOf(rows)
    ensures var rs := Minutes(rows, k, r0, starter);
            && k in KeysOf(rs) && FirstWith(rs, k) == FirstWith(rows, k)
            && forall c :: Cell(At(rs, k), c) ==
                 if c != TimePlayed then Cell(At(rows, k), c)
                 else if Cell(r0, SubsIn) == 0 && Cell(r0, SubsOut) == 0 && starter then 90
                 else if Cell(r0, SubsIn) != 0 && Cell(r0, SubsOut) == 0 then 90 - Cell(At(rows, k), c)
                 else Cell(At(rows, k), c)
  {
    AssignAt(rows, k, TimePlayed, 90);
    RebaseAt(rows, k, TimePlayed, 90);
  }

  lemma MarkPlayedAt(rows: seq<Row>, k: Key)
    requires k in KeysOf(rows)
    ensures var rs := MarkPlayed(rows, k);
            && k in KeysOf(rs) && FirstWith(rs, k) == FirstWith(rows, k)
            && forall c :: Cell(At(rs, k), c) ==
                 if c == HasPlayed && Cell(At(rows, k), TimePlayed) != 0 then 1 else Cell(At(rows, k), c)
  {
    AssignAt(rows, k, HasPlayed, 1);
  }

  /** What update_time_played leaves in the record, read at the first record of the key
      (the one the snapshot reads): every column is Finished of the snapshot. */
  lemma FinishTimeRules(rows: seq<Row>, k: Key, starter: bool)
    requires k in KeysOf(rows)
    ensures var rs := FinishTime(rows, k, starter);
            && k in KeysOf(rs) && FirstWith(rs, k) == FirstWith(rows, k)
            && forall c :: Cell(At(rs, k), c) == Finished(At(rows, k), c, starter)
  {
    var rs := StepsAt(rows, k, starter);
    StepsRecord(rows, k, starter);
    assert FinishTime(rows, k, starter) == rs;
  }

  /** The three steps of update_time_played keep the key's first record where it was. */
  lemma StepsAt(rows: seq<Row>, k: Key, starter: bool) returns (rs: seq<Row>)
    requires k in KeysOf(rows)
    ensures var r0 := At(rows, k);
            rs == MarkPlayed(Minutes(ClearSentOff(rows, k, r0), k, r0, starter), k)
    ensures k in KeysOf(rs) && FirstWith(rs, k) == FirstWith(rows, k)
  {
    var r0 := At(rows, k);
    var rows1 := ClearSentOff(rows, k, r0);
    ClearSentOffAt(rows, k, r0);
    var rows2 := Minutes(rows1, k, r0, starter);
    MinutesAt(rows1, k, r0, starter);
    rs := MarkPlayed(rows2, k);
    MarkPlayedAt(rows2, k);
  }

  /** The minutes the record shows after the minutes rule, decided on the snapshot. */
  function MinutesAfter(r0: Row, starter: bool): int {
    if Cell(r0, SubsIn) == 0 && Cell(r0, SubsOut) == 0 && starter then 90
    else if Cell(r0, SubsIn) != 0 && Cell(r0, SubsOut) == 0 then 90 - Cell(r0, TimePlayed)
    else Cell(r0, TimePlayed)
  }

  /** Column `c` of the record after the three steps, from the snapshot `r0`. */
  function Finished(r0: Row, c: Stat, starter: bool): int {
    if c == SubsOut then (if Carded(r0) then 0 else Cell(r0, SubsOut))
    else if c == TimePlayed then MinutesAfter(r0, starter)
    else if c == HasPlayed then (if MinutesAfter(r0, starter) != 0 then 1 else Cell(r0, HasPlayed))
    else Cell(r0, c)
  }

  /** What the three steps leave in the key's first record, column by column. */
  lemma StepsRecord(rows: seq<Row>, k: Key, starter: bool)
    requires k in KeysOf(rows)
    ensures var r0 := At(rows, k);
            var rs := MarkPlayed(Minutes(ClearSentOff(rows, k, r0), k, r0, starter), k);
            && k in KeysOf(rs)
            && forall c :: Cell(At(rs, k), c) == Finished(r0, c, starter)
  {
    var r0 := At(rows, k);
    var rows1 := ClearSentOff(rows, k, r0);
    ClearSentOffAt(rows, k, r0);
    var rows2 := Minutes(rows1, k, r0, starter);
    MinutesAt(rows1, k, r0, starter);
    var rs := MarkPlayed(rows2, k);
    MarkPlayedAt(rows2, k);
    ComposeRules(r0, At(rows1, k), At(rows2, k), At(rs, k), starter);
  }

  /** The three steps' effects on one record, composed. */
  lemma ComposeRules(r0: Row, r1: Row, r2: Row, r: Row, starter: bool)
    requires forall c :: Cell(r1, c) == if c == SubsOut && Cell(r0, SubsOut) != 0 && Carded(r0) then 0 else Cell(r0, c)
    requires forall c :: Cell(r2, c) ==
               if c != TimePlayed then Cell(r1, c)
               else if Cell(r0, SubsIn) == 0 && Cell(r0, SubsOut) == 0 && starter then 90
               else if Cell(r0, SubsIn) != 0 && Cell(r0, SubsOut) == 0 then 90 - Cell(r1, c)
               else Cell(r1, c)
    requires forall c :: Cell(r, c) == if c == HasPlayed && Cell(r2, TimePlayed) != 0 then 1 else Cell(r2, c)
    ensures forall c :: Cell(r, c) == Finished(r0, c, starter)
  {
    assert Cell(r1, TimePlayed) == Cell(r0, TimePlayed);
    assert Cell(r2, TimePlayed) == MinutesAfter(r0, starter);
    forall c ensures Cell(r, c) == Finished(r0, c, starter) {
      if c == HasPlayed {
        assert Cell(r2, c) == Cell(r1, c) == Cell(r0, c);
      } else if c != TimePlayed {
        assert Cell(r, c) == Cell(r2, c) == Cell(r1, c);
      }
    }
  }

  /** The column rules spelled out: the exit cleared after a red card, the minutes rule,
      has_played following the minutes, every other column untouched. */
  lemma FinishedRules(r0: Row, r: Row, starter: bool)
    requires forall c :: Cell(r, c) == Finished(r0, c, starter)
    ensures Cell(r, SubsOut) == (if Carded(r0) then 0 else Cell(r0, SubsOut))
    ensures Cell(r, TimePlayed) == (if Cell(r0, SubsIn) == 0 && Cell(r0, SubsOut) == 0 && starter then 90
                                   else if Cell(r0, SubsIn) != 0 && Cell(r0, SubsOut) == 0 then 90 - Cell(r0, TimePlayed)
                                   else Cell(r0, TimePlayed))
    ensures Cell(r, HasPlayed) == (if Cell(r, TimePlayed) != 0 then 1 else Cell(r0, HasPlayed))
    ensures forall c :: c !in {SubsOut, TimePlayed, HasPlayed} ==> Cell(r, c) == Cell(r0, c)
  {
    assert Cell(r, TimePlayed) == MinutesAfter(r0, starter);
  }

  /** A starter who played the whole match: 90 minutes, and he has played. */
  lemma FullMatch(rows: seq<Row>, k: Key)
    requires k in KeysOf(rows)
    requires Cell(At(rows, k), SubsIn) == 0 && Cell(At(rows, k), SubsOut) == 0
    ensures var r := At(FinishTime(rows, k, true), k);
            Cell(r, TimePlayed) == 90 && Cell(r, HasPlayed) == 1
  {
    FinishTimeRules(rows, k, true);
    FinishedRules(At(rows, k), At(FinishTime(rows, k, true), k), true);
  }

  /** A substitute who came on at minute m (and stayed): 90 - m minutes. */
  lemma CameOn(rows: seq<Row>, k: Key, starter: bool)
    requires k in KeysOf(rows)
    requires Cell(At(rows, k), SubsIn) != 0 && Cell(At(rows, k), SubsOut) == 0
    ensures Cell(At(FinishTime(rows, k, starter), k), TimePlayed) == 90 - Cell(At(rows, k), TimePlayed)
  {
    FinishTimeRules(rows, k, starter);
    FinishedRules(At(rows, k), At(FinishTime(rows, k, starter), k), starter);
  }

  /** A player sent off after his substitution minute was recorded: subs_out is cleared,
      but the minutes rule reads the snapshot, which still shows him gone, so he keeps the
      minutes the substitution left. */
  lemma SentOffKeepsMinutes(rows: seq<Row>, k: Key, starter: bool)
    requires k in KeysOf(rows)
    requires Cell(At(rows, k), SubsOut) != 0 && Carded(At(rows, k))
    ensures var r := At(FinishTime(rows, k, starter), k);
            Cell(r, SubsOut) == 0 && Cell(r, TimePlayed) == Cell(At(rows, k), TimePlayed)
  {
    FinishTimeRules(rows, k, starter);
    FinishedRules(At(rows, k), At(FinishTime(rows, k, starter), k), starter);
  }

  /** An unused substitute keeps his record as it was. */
  lemma Unused(rows: seq<Row>, k: Key)
    requires k in KeysOf(rows)
    requires Cell(At(rows, k), SubsIn) == 0 && Cell(At(rows, k), SubsOut) == 0 && Cell(At(rows, k), TimePlayed) == 0
    ensures At(FinishTime(rows, k, false), k).cells == At(rows, k).cells
  {
    FinishTimeRules(rows, k, false);
    FinishedRules(At(rows, k), At(FinishTime(rows, k, false), k), false);
    var r0 := At(rows, k);
    var r := At(FinishTime(rows, k, false), k);
    forall c ensures Get(r.cells, c, 0) == Get(r0.cells, c, 0) {
      assert Cell(r, c) == Cell(r0, c);
    }
    CellsEqual(r, r0);
  }

  /** A record starting with has_played 0 ends with has_played 1 exactly when it shows minutes. */
  lemma HasPlayedIffMinutes(rows: seq<Row>, k: Key, starter: bool)
    requires k in KeysOf(rows) && Cell(At(rows, k), HasPlayed) == 0
    ensures var r := At(FinishTime(rows, k, starter), k);
            Cell(r, HasPlayed) == 1 <==> Cell(r, TimePlayed) != 0
  {
    FinishTimeRules(rows, k, starter);
    FinishedRules(At(rows, k), At(FinishTime(rows, k, starter), k), starter);
  }

  /** Two rows whose cells have the same keys and the same values. */
  lemma CellsEqual(r: Row, r0: Row)
    requires r.cells.Keys == r0.cells.Keys && forall c :: Cell(r, c) == Cell(r0, c)
    ensures r.cells == r0.cells
  {
    forall c | c in r.cells ensures r.cells[c] == r0.cells[c] {
      assert Cell(r, c) == r.cells[c];
      assert Cell(r0, c) == r0.cells[c];
    }
  }

  lemma FinishTimeKeepsWellFormed(t: TableId, rows: seq<Row>, k: Key, starter: bool)
    requires t != TeamTable && AllWellFormed(t, rows)
    ensures AllWellFormed(t, FinishTime(rows, k, starter))
  {
    if k in KeysOf(rows) {
      var r0 := At(rows, k);
      var rows1 := ClearSentOff(rows, k, r0);
      ClearSentOffKeepsWellFormed(t, rows, k, r0);
      var rows2 := Minutes(rows1, k, r0, starter);
      MinutesKeepsWellFormed(t, rows1, k, r0, starter);
      MarkPlayedKeepsWellFormed(t, rows2, k);
    }
  }

  lemma ClearSentOffKeepsWellFormed(t: TableId, rows: seq<Row>, k: Key, r0: Row)
    requires t != TeamTable && AllWellFormed(t, rows)
    ensures AllWellFormed(t, ClearSentOff(rows, k, r0))
  {
    AssignKeepsWellFormed(t, rows, k, SubsOut, 0);
  }

  lemma MinutesKeepsWellFormed(t: TableId, rows: seq<Row>, k: Key, r0: Row, starter: bool)
    requires t != TeamTable && AllWellFormed(t, rows)
    ensures AllWellFormed(t, Minutes(rows, k, r0, starter))
  {
    AssignKeepsWellFormed(t, rows, k, TimePlayed, 90);
    RebaseKeepsWellFormed(t, rows, k, TimePlayed, 90);
  }

  lemma MarkPlayedKeepsWellFormed(t: TableId, rows: seq<Row>, k: Key)
    requires t != TeamTable && AllWellFormed(t, rows)
    ensures AllWellFormed(t, MarkPlayed(rows, k))
  {
    AssignKeepsWellFormed(t, rows, k, HasPlayed, 1);
  }

  /** update_time_played over the lineup columns `slots`. */
  function UpdateTimePlayed(u: Tables, reg: Registry, l: Lineup, season: int, rounds: Rounds,
                            slots: seq<Slot>): Result<Tables>
    decreases |slots|
  {
    if slots == [] then Ok(u)
    else
      var s := slots[0];
      if s !in l.names then UpdateTimePlayed(u, reg, l, season, rounds, slots[1..])
      else
        var (t, k) :- SlotRecord(reg, l, s, season, rounds);
        UpdateTimePlayed(u.With(t, FinishTime(u.Of(t), k, s.starter)), reg, l, season, rounds, slots[1..])
  }

  /** After init_players_in_match resolved every filled column, the lookups of
      update_time_played cannot fail. */
  lemma {:induction false} UpdateTimePlayedSucceeds(u: Tables, reg: Registry, cache: RoundCache, l: Lineup,
                                                    season: int, rounds: Rounds, slots: seq<Slot>)
    requires Resolved(reg, cache, l, season, slots, rounds)
    ensures UpdateTimePlayed(u, reg, l, season, rounds, slots).Ok?
    decreases |slots|
  {
    if slots != [] {
      var s := slots[0];
      assert Resolved(reg, cache, l, season, slots[1..], rounds);
      if s !in l.names {
        UpdateTimePlayedSucceeds(u, reg, cache, l, season, rounds, slots[1..]);
      } else {
        var (t, k) := SlotRecord(reg, l, s, season, rounds).value;
        UpdateTimePlayedSucceeds(u.With(t, FinishTime(u.Of(t), k, s.starter)), reg, cache, l, season, rounds, slots[1..]);
      }
    }
  }

  /** The pass changes cells only. */
  lemma {:induction false} UpdateTimePlayedKeepsShape(u: Tables, reg: Registry, l: Lineup, season: int,
                                                      rounds: Rounds, slots: seq<Slot>)
    requires u.Valid() && UpdateTimePlayed(u, reg, l, season, rounds, slots).Ok?
    ensures var v := UpdateTimePlayed(u, reg, l, season, rounds, slots).value;
            Reshaped(u, v) && v.Valid()
    decreases |slots|
  {
    if slots == [] {
      assert Reshaped(u, u);
    } else {
      var s := slots[0];
      if s !in l.names {
        UpdateTimePlayedKeepsShape(u, reg, l, season, rounds, slots[1..]);
      } else {
        var (t, k) := SlotRecord(reg, l, s, season, rounds).value;
        var u1 := u.With(t, FinishTime(u.Of(t), k, s.starter));
        FinishTimeKeepsShape(u, t, k, s.starter);
        UpdateTimePlayedKeepsShape(u1, reg, l, season, rounds, slots[1..]);
        ReshapedTrans(u, u1, UpdateTimePlayed(u1, reg, l, season, rounds, slots[1..]).value);
      }
    }
  }

  lemma FinishTimeKeepsShape(u: Tables, t: TableId, k: Key, starter: bool)
    requires u.Valid() && t != TeamTable
    ensures var v := u.With(t, FinishTime(u.Of(t), k, starter));
            Reshaped(u, v) && v.Valid()
  {
    var v := u.With(t, FinishTime(u.Of(t), k, starter));
    FinishTimeKeepsWellFormed(t, u.Of(t), k, starter);
    forall o ensures AllWellFormed(o, v.Of(o)) && SameShape(u.Of(o), v.Of(o)) {
      assert AllWellFormed(o, u.Of(o));
    }
  }

  // ---------------------------------------------------------------- update_injuries

  /** days_without_injury of a player with no injury on record yet. */
  const NoInjury := 10000

  /** The previous round's count carried to a match played on `date`: the sentinel stays,
      any other count grows by the days since the previous match (`prev`); an unreadable
      date is a ValueError. */
  function CarryDays(prev: Row, date: string): (r: Result<int>)
    ensures Cell(prev, DaysWithoutInjury) == NoInjury ==> r == Ok(NoInjury)
    ensures Cell(prev, DaysWithoutInjury) != NoInjury ==>
              (r.Ok? <==> Dates.CountDays(prev.date, date).Ok?)
              && (r.Ok? ==> r.value == Cell(prev, DaysWithoutInjury) + Dates.CountDays(prev.date, date).value)
  {
    if Cell(prev, DaysWithoutInjury) == NoInjury then Ok(NoInjury)
    else
      var days :- Dates.CountDays(prev.date, date);
      Ok(Cell(prev, DaysWithoutInjury) + days)
  }

  /** The days_without_injury update_injuries gives a record whose snapshot is `r0`, with
      `prevRows` the global table (the records of earlier matches): 0 if he got injured; the
      sentinel in his first round; else the count carried from his previous round, whose
      absence is an IndexError. */
  function InjuryDays(r0: Row, k: Key, prevRows: seq<Row>): (r: Result<int>)
    ensures Cell(r0, HasInjured) == 1 ==> r == Ok(0)
    ensures Cell(r0, HasInjured) != 1 && k.round == 1 ==> r == Ok(NoInjury)
    ensures Cell(r0, HasInjured) != 1 && k.round != 1 ==>
              var pk := Key(k.ident, k.season, k.round - 1);
              && (pk !in KeysOf(prevRows) ==> r == Err(IndexError))
              && (pk in KeysOf(prevRows) ==> r == CarryDays(At(prevRows, pk), r0.date))
  {
    if Cell(r0, HasInjured) == 1 then Ok(0)
    else if k.round == 1 then Ok(NoInjury)
    else
      var pk := Key(k.ident, k.season, k.round - 1);
      if pk !in KeysOf(prevRows) then Err(IndexError)
      else CarryDays(At(prevRows, pk), r0.date)
  }

  /** update_injuries on one record: a key with no record changes nothing. */
  function FinishInjury(rows: seq<Row>, k: Key, prevRows: seq<Row>): (r: Result<seq<Row>>)
    ensures r.Ok? ==> SameShape(rows, r.value)
    ensures r.Err? <==> k in KeysOf(rows) && InjuryDays(At(rows, k), k, prevRows).Err?
  {
    if k !in KeysOf(rows) then Ok(rows)
    else
      var d :- InjuryDays(At(rows, k), k, prevRows);
      Ok(Assign(rows, k, DaysWithoutInjury, d))
  }

  /** On well-formed dates, the days added are the days between the matches, never fewer
      than none when the later match is not earlier. */
  lemma InjuryFreeDaysGrow(prevDate: string, date: string, a: Dates.Date, b: Dates.Date)
    requires Dates.ValidDate(a) && Dates.ValidDate(b) && !Dates.Before(b, a)
    requires prevDate == Dates.Format(a) && date == Dates.Format(b)
    ensures Dates.CountDays(prevDate, date).Ok?
    ensures Dates.CountDays(prevDate, date).value == Dates.Ordinal(b) - Dates.Ordinal(a) >= 0
  {
    Dates.CountDaysOfFormatted(a, b);
    Dates.OrdinalOrder(b, a);
  }

  /** The record's days_without_injury becomes InjuryDays of its snapshot; nothing else moves. */
  lemma FinishInjuryAt(rows: seq<Row>, k: Key, prevRows: seq<Row>)
    requires k in KeysOf(rows) && FinishInjury(rows, k, prevRows).Ok?
    ensures var rs := FinishInjury(rows, k, prevRows).value;
            && k in KeysOf(rs)
            && forall c :: Cell(At(rs, k), c) ==
                 if c == DaysWithoutInjury then InjuryDays(At(rows, k), k, prevRows).value else Cell(At(rows, k), c)
  {
    AssignAt(rows, k, DaysWithoutInjury, InjuryDays(At(rows, k), k, prevRows).value);
  }

  lemma FinishInjuryKeepsWellFormed(t: TableId, rows: seq<Row>, k: Key, prevRows: seq<Row>)
    requires t != TeamTable && AllWellFormed(t, rows) && FinishInjury(rows, k, prevRows).Ok?
    ensures AllWellFormed(t, FinishInjury(rows, k, prevRows).value)
  {
    if k in KeysOf(rows) {
      AssignKeepsWellFormed(t, rows, k, DaysWithoutInjury, InjuryDays(At(rows, k), k, prevRows).value);
    }
  }

  /** update_injuries over the lineup columns `slots`; `g` is the global tables, which hold
      the previous rounds. */
  function UpdateInjuries(u: Tables, g: Tables, reg: Registry, l: Lineup, season: int, rounds: Rounds,
                          slots: seq<Slot>): Result<Tables>
    decreases |slots|
  {
    if slots == [] then Ok(u)
    else
      var s := slots[0];
      if s !in l.names then UpdateInjuries(u, g, reg, l, season, rounds, slots[1..])
      else
        var (t, k) :- SlotRecord(reg, l, s, season, rounds);
        var rows :- FinishInjury(u.Of(t), k, g.Of(t));
        UpdateInjuries(u.With(t, rows), g, reg, l, season, rounds, slots[1..])
  }

  /** The pass changes cells only. */
  lemma {:induction false} UpdateInjuriesKeepsShape(u: Tables, g: Tables, reg: Registry, l: Lineup, season: int,
                                                    rounds: Rounds, slots: seq<Slot>)
    requires u.Valid() && UpdateInjuries(u, g, reg, l, season, rounds, slots).Ok?
    ensures var v := UpdateInjuries(u, g, reg, l, season, rounds, slots).value;
            Reshaped(u, v) && v.Valid()
    decreases |slots|
  {
    if slots == [] {
      assert Reshaped(u, u);
    } else {
      var s := slots[0];
      if s !in l.names {
        UpdateInjuriesKeepsShape(u, g, reg, l, season, rounds, slots[1..]);
      } else {
        var (t, k) := SlotRecord(reg, l, s, season, rounds).value;
        var rows := FinishInjury(u.Of(t), k, g.Of(t)).value;
        var u1 := u.With(t, rows);
        FinishInjuryKeepsWellFormed(t, u.Of(t), k, g.Of(t));
        assert u1.Valid() by {
          forall o ensures AllWellFormed(o, u1.Of(o)) {
            assert AllWellFormed(o, u.Of(o));
          }
        }
        UpdateInjuriesKeepsShape(u1, g, reg, l, season, rounds, slots[1..]);
        ReshapedTrans(u, u1, UpdateInjuries(u1, g, reg, l, season, rounds, slots[1..]).value);
      }
    }
  }

  // ---------------------------------------------------------------- in place

  /** update_time_played's body for one record, on the per-match tables. */
  method FinishTimeIn(m: MatchTables, t: TableId, k: Key, starter: bool)
    modifies m
    requires m.Valid() && t != TeamTable
    ensures m.Valid()
    ensures m.Snapshot() == old(m.Snapshot()).With(t, FinishTime(old(m.Snapshot()).Of(t), k, starter))
  {
    var u := m.Snapshot();
    var rows := u.Of(t);
    if k !in KeysOf(rows) {
      assert u.With(t, rows) == u;
      return;
    }
    var r0 := At(rows, k);
    ClearSentOffIn(m, t, k, r0);
    MinutesIn(m, t, k, r0, starter);
    MarkPlayedIn(m, t, k);
  }

  method ClearSentOffIn(m: MatchTables, t: TableId, k: Key, r0: Row)
    modifies m
    requires m.Valid() && t != TeamTable
    ensures m.Valid()
    ensures m.Snapshot() == old(m.Snapshot()).With(t, ClearSentOff(old(m.Snapshot()).Of(t), k, r0))
  {
    if Cell(r0, SubsOut) != 0 && Carded(r0) {
      m.Set(t, k, SubsOut, 0);
    } else {
      assert m.Snapshot().With(t, m.Snapshot().Of(t)) == m.Snapshot();
    }
  }

  method MinutesIn(m: MatchTables, t: TableId, k: Key, r0: Row, starter: bool)
    modifies m
    requires m.Valid() && t != TeamTable
    ensures m.Valid()
    ensures m.Snapshot() == old(m.Snapshot()).With(t, Minutes(old(m.Snapshot()).Of(t), k, r0, starter))
  {
    if Cell(r0, SubsIn) == 0 && Cell(r0, SubsOut) == 0 && starter {
      m.Set(t, k, TimePlayed, 90);
    } else if Cell(r0, SubsIn) != 0 && Cell(r0, SubsOut) == 0 {
      m.SetRebased(t, k, TimePlayed, 90);
    } else {
      assert m.Snapshot().With(t, m.Snapshot().Of(t)) == m.Snapshot();
    }
  }

  method MarkPlayedIn(m: MatchTables, t: TableId, k: Key)
    modifies m
    requires m.Valid() && t != TeamTable
    ensures m.Valid()
    ensures m.Snapshot() == old(m.Snapshot()).With(t, MarkPlayed(old(m.Snapshot()).Of(t), k))
  {
    var rows := m.Snapshot().Of(t);
    if k in KeysOf(rows) && Cell(At(rows, k), TimePlayed) != 0 {
      m.Set(t, k, HasPlayed, 1);
    } else {
      assert m.Snapshot().With(t, rows) == m.Snapshot();
    }
  }

  /** update_time_played in place. */
  method UpdateTimePlayedIn(m: MatchTables, reg: Registry, l: Lineup, season: int, rounds: Rounds)
    returns (err: Option<Error>)
    modifies m
    requires m.Valid()
    ensures m.Valid()
    ensures var r := UpdateTimePlayed(old(m.Snapshot()), reg, l, season, rounds, ProductSlots());
            && (r.Ok? ==> err == None && m.Snapshot() == r.value)
            && (r.Err? ==> err == Some(r.error))
  {
    var slots := ProductSlots();
    var i := 0;
    while i < |slots|
      invariant 0 <= i <= |slots|
      invariant m.Valid()
      invariant UpdateTimePlayed(old(m.Snapshot()), reg, l, season, rounds, slots)
                == UpdateTimePlayed(m.Snapshot(), reg, l, season, rounds, slots[i..])
    {
      assert slots[i..][1..] == slots[i + 1..];
      var s := slots[i];
      if s in l.names {
        var rec := SlotRecord(reg, l, s, season, rounds);
        if rec.Err? {
          return Some(rec.error);
        }
        var (t, k) := rec.value;
        FinishTimeIn(m, t, k, s.starter);
      }
      i := i + 1;
    }
    err := None;
  }

  /** update_injuries' body for one record, on the per-match tables. */
  method FinishInjuryIn(m: MatchTables, t: TableId, k: Key, prevRows: seq<Row>) returns (err: Option<Error>)
    modifies m
    requires m.Valid() && t != TeamTable
    ensures m.Valid()
    ensures var r := FinishInjury(old(m.Snapshot()).Of(t), k, prevRows);
            && (r.Ok? ==> err == None && m.Snapshot() == old(m.Snapshot()).With(t, r.value))
            && (r.Err? ==> err == Some(r.error) && m.Snapshot() == old(m.Snapshot()))
  {
    var u := m.Snapshot();
    var rows := u.Of(t);
    if k !in KeysOf(rows) {
      assert u.With(t, rows) == u;
      return None;
    }
    var d := InjuryDays(At(rows, k), k, prevRows);
    if d.Err? {
      return Some(d.error);
    }
    m.Set(t, k, DaysWithoutInjury, d.value);
    err := None;
  }

  /** update_injuries in place, reading the previous rounds from the global tables `g`. */
  method UpdateInjuriesIn(m: MatchTables, g: Tables, reg: Registry, l: Lineup, season: int, rounds: Rounds)
    returns (err: Option<Error>)
    modifies m
    requires m.Valid()
    ensures m.Valid()
    ensures var r := UpdateInjuries(old(m.Snapshot()), g, reg, l, season, rounds, ProductSlots());
            && (r.Ok? ==> err == None && m.Snapshot() == r.value)
            && (r.Err? ==> err == Some(r.error))
  {
    var slots := ProductSlots();
    var i := 0;
    while i < |slots|
      invariant 0 <= i <= |slots|
      invariant m.Valid()
      invariant UpdateInjuries(old(m.Snapshot()), g, reg, l, season, rounds, slots)
                == UpdateInjuries(m.Snapshot(), g, reg, l, season, rounds, slots[i..])
    {
      err := FinishInjurySlot(m, g, reg, l, season, rounds, slots, i);
      if err.Some? {
        return;
      }
      i := i + 1;
    }
    err := None;
  }

  /** One pass of the injury loop: the player of slot `i`, when the slot is filled. */
  method FinishInjurySlot(m: MatchTables, g: Tables, reg: Registry, l: Lineup, season: int, rounds: Rounds,
                          slots: seq<Slot>, i: nat) returns (err: Option<Error>)
    modifies m
    requires m.Valid() && i < |slots|
    ensures m.Valid()
    ensures var r := UpdateInjuries(old(m.Snapshot()), g, reg, l, season, rounds, slots[i..]);
            && (err.None? ==> r == UpdateInjuries(m.Snapshot(), g, reg, l, season, rounds, slots[i + 1..]))
            && (err.Some? ==> r == Err(err.value))
  {
    assert slots[i..][1..] == slots[i + 1..];
    var s := slots[i];
    if s in l.names {
      var rec := SlotRecord(reg, l, s, season, rounds);
      if rec.Err? {
        return Some(rec.error);
      }
      var (t, k) := rec.value;
      err := FinishInjuryIn(m, t, k, g.Of(t));
    } else {
      err := None;
    }
  }
}
