/** The per-round record tables (`teams`, `players`, `goalkeepers` and the per-match copies
    `_teams`, `_players`, `_goalkeepers`) and the two operations that write them, init_row and
    append_value (database_build.py:130-154). A DataFrame is a sequence of rows in insertion
    order; a boolean-mask selection `df.loc[(id, season, round)]` is every row with that key. */
module Records {
  import opened Common
  import opened Schema
  import opened Ledger

  /** One row. In `teams` the key's ident is the team name and `team` is empty; in `players`
      and `goalkeepers` the ident is the player id and `name` the lineup name. */
  datatype Row = Row(key: Key, name: string, date: string, team: string, cells: map<Stat, int>)

  /** The value of one counter cell. */
  function Cell(r: Row, c: Stat): int {
    Get(r.cells, c, 0)
  }

  /** A row carries exactly the counter columns of its table. */
  predicate WellFormed(t: TableId, r: Row) {
    r.cells.Keys == ColumnSet(t)
  }

  predicate AllWellFormed(t: TableId, rows: seq<Row>) {
    forall i :: 0 <= i < |rows| ==> WellFormed(t, rows[i])
  }

  function KeysOf(rows: seq<Row>): set<Key> {
    set i | 0 <= i < |rows| :: rows[i].key
  }

  /** The two sequences differ at most in their counter cells. */
  predicate SameShape(rows: seq<Row>, rs: seq<Row>) {
    && |rs| == |rows|
    && forall i :: 0 <= i < |rows| ==>
         && rs[i].key == rows[i].key && rs[i].name == rows[i].name
         && rs[i].date == rows[i].date && rs[i].team == rows[i].team
  }

  /** The three tables of one scope (the per-match copies or the global ones). */
  datatype Tables = Tables(teams: seq<Row>, players: seq<Row>, keepers: seq<Row>) {
    function Of(t: TableId): seq<Row> {
      match t
      case TeamTable => teams
      case PlayerTable => players
      case KeeperTable => keepers
    }

    function With(t: TableId, rows: seq<Row>): (u: Tables)
      ensures u.Of(t) == rows && forall o :: o != t ==> u.Of(o) == Of(o)
    {
      match t
      case TeamTable => this.(teams := rows)
      case PlayerTable => this.(players := rows)
      case KeeperTable => this.(keepers := rows)
    }

    ghost predicate Valid() {
      forall t :: AllWellFormed(t, Of(t))
    }
  }

  /** `v` is `u` with at most counter cells changed, in any table. */
  predicate Reshaped(u: Tables, v: Tables) {
    forall t :: SameShape(u.Of(t), v.Of(t))
  }

  /** Replacing one table by well-formed rows of the same shape keeps the tables valid. */
  lemma WithKeepsValid(u: Tables, t: TableId, rows: seq<Row>)
    requires u.Valid() && AllWellFormed(t, rows) && SameShape(u.Of(t), rows)
    ensures u.With(t, rows).Valid() && Reshaped(u, u.With(t, rows))
  {
    var v := u.With(t, rows);
    forall o ensures AllWellFormed(o, v.Of(o)) && SameShape(u.Of(o), v.Of(o)) {
      assert AllWellFormed(o, u.Of(o));
    }
  }

  lemma ReshapedTrans(u: Tables, v: Tables, w: Tables)
    requires Reshaped(u, v) && Reshaped(v, w)
    ensures Reshaped(u, w)
  {
  }

  function EmptyTables(): (u: Tables)
    ensures u.Valid() && forall t :: u.Of(t) == []
  {
    Tables([], [], [])
  }

  /** init_row: a row of table `t` whose every counter is 0. */
  function NewRow(t: TableId, k: Key, name: string, date: string, team: string): (r: Row)
    ensures r.key == k && r.name == name && r.date == date && r.team == team
    ensures WellFormed(t, r)
    ensures forall c :: Cell(r, c) == 0
  {
    Row(k, name, date, team, map c | c in ColumnSet(t) :: 0)
  }

  /** `df.loc[mask(k), col] += v`: every row with key `k` gains `v` in column `col`; a key no row
      has selects nothing and changes nothing. */
  function AddTo(rows: seq<Row>, k: Key, col: Stat, v: int): (rs: seq<Row>)
    ensures SameShape(rows, rs)
    ensures forall i, c :: 0 <= i < |rows| ==>
              Cell(rs[i], c) == Cell(rows[i], c) + (if rows[i].key == k && c == col then v else 0)
    ensures forall i :: 0 <= i < |rows| ==>
              rs[i].cells.Keys == rows[i].cells.Keys + (if rows[i].key == k then {col} else {})
  {
    seq(|rows|, i requires 0 <= i < |rows| =>
      if rows[i].key == k then rows[i].(cells := rows[i].cells[col := Cell(rows[i], col) + v])
      else rows[i])
  }

  /** `df.loc[mask(k), col] = v`: every row with key `k` takes `v` in column `col`. */
  function Assign(rows: seq<Row>, k: Key, col: Stat, v: int): (rs: seq<Row>)
    ensures SameShape(rows, rs)
    ensures forall i, c :: 0 <= i < |rows| ==>
              Cell(rs[i], c) == (if rows[i].key == k && c == col then v else Cell(rows[i], c))
    ensures forall i :: 0 <= i < |rows| ==>
              rs[i].cells.Keys == rows[i].cells.Keys + (if rows[i].key == k then {col} else {})
  {
    seq(|rows|, i requires 0 <= i < |rows| =>
      if rows[i].key == k then rows[i].(cells := rows[i].cells[col := v]) else rows[i])
  }

  /** `df.loc[mask(k), col] = base - row[col]` with `row` that selection: every row with key
      `k` gets `base` minus its own value. */
  function Rebase(rows: seq<Row>, k: Key, col: Stat, base: int): (rs: seq<Row>)
    ensures SameShape(rows, rs)
    ensures forall i, c :: 0 <= i < |rows| ==>
              Cell(rs[i], c) == (if rows[i].key == k && c == col then base - Cell(rows[i], c) else Cell(rows[i], c))
    ensures forall i :: 0 <= i < |rows| ==>
              rs[i].cells.Keys == rows[i].cells.Keys + (if rows[i].key == k then {col} else {})
  {
    seq(|rows|, i requires 0 <= i < |rows| =>
      if rows[i].key == k then rows[i].(cells := rows[i].cells[col := base - Cell(rows[i], col)]) else rows[i])
  }

  lemma RebaseKeepsColumns(rows: seq<Row>, k: Key, col: Stat, base: int, cols: set<Stat>)
    requires forall i :: 0 <= i < |rows| ==> rows[i].cells.Keys == cols
    requires col in cols
    ensures var rs := Rebase(rows, k, col, base);
            forall i :: 0 <= i < |rs| ==> rs[i].cells.Keys == cols
  {
  }

  lemma RebaseKeepsWellFormed(t: TableId, rows: seq<Row>, k: Key, col: Stat, base: int)
    requires AllWellFormed(t, rows) && col in ColumnSet(t)
    ensures AllWellFormed(t, Rebase(rows, k, col, base))
  {
    RebaseKeepsColumns(rows, k, col, base, ColumnSet(t));
  }

  /** Changing only counter cells keeps the set of keys. */
  lemma SameShapeKeys(rows: seq<Row>, rs: seq<Row>)
    requires SameShape(rows, rs)
    ensures KeysOf(rs) == KeysOf(rows)
  {
    assert forall i :: 0 <= i < |rows| ==> rs[i].key == rows[i].key;
  }

  /** ... and the first row of every key. */
  lemma SameShapeFirst(rows: seq<Row>, rs: seq<Row>, k: Key)
    requires SameShape(rows, rs) && k in KeysOf(rows)
    ensures k in KeysOf(rs) && FirstWith(rs, k) == FirstWith(rows, k)
  {
    SameShapeKeys(rows, rs);
  }

  lemma AssignKeepsColumns(rows: seq<Row>, k: Key, col: Stat, v: int, cols: set<Stat>)
    requires forall i :: 0 <= i < |rows| ==> rows[i].cells.Keys == cols
    requires col in cols
    ensures var rs := Assign(rows, k, col, v);
            forall i :: 0 <= i < |rs| ==> rs[i].cells.Keys == cols
  {
  }

  lemma AssignKeepsWellFormed(t: TableId, rows: seq<Row>, k: Key, col: Stat, v: int)
    requires AllWellFormed(t, rows) && col in ColumnSet(t)
    ensures AllWellFormed(t, Assign(rows, k, col, v))
  {
    AssignKeepsColumns(rows, k, col, v, ColumnSet(t));
  }

  /** The position of the first row with key `k` (`row[...].values[0]` reads this one). */
  function FirstWith(rows: seq<Row>, k: Key): (i: nat)
    requires k in KeysOf(rows)
    ensures i < |rows| && rows[i].key == k
    ensures forall j :: 0 <= j < i ==> rows[j].key != k
  {
    if rows[0].key == k then 0
    else
      assert k in KeysOf(rows[1..]) by {
        var j :| 0 <= j < |rows| && rows[j].key == k;
        assert rows[1..][j - 1] == rows[j];
      }
      1 + FirstWith(rows[1..], k)
  }

  /** append_value with time=True: a cell still 0 takes the minute `v`; otherwise it takes
      `v` minus what it holds, so an entry minute followed by an exit minute leaves the minutes
      played. With no row for the key, `.values[0]` fails. */
  function SetTime(rows: seq<Row>, k: Key, col: Stat, v: int): (r: Result<seq<Row>>)
    ensures r.Err? <==> k !in KeysOf(rows)
    ensures r.Err? ==> r.error == IndexError
    ensures r.Ok? ==> SameShape(rows, r.value)
    ensures r.Ok? ==> forall i, c :: 0 <= i < |rows| ==>
              Cell(r.value[i], c) ==
                (if rows[i].key != k || c != col then Cell(rows[i], c)
                 else if Cell(rows[FirstWith(rows, k)], col) == 0 then v
                 else v - Cell(rows[i], col))
    ensures r.Ok? ==> forall i :: 0 <= i < |rows| ==>
              r.value[i].cells.Keys == rows[i].cells.Keys + (if rows[i].key == k then {col} else {})
  {
    if k !in KeysOf(rows) then Err(IndexError)
    else
      var zero := Cell(rows[FirstWith(rows, k)], col) == 0;
      Ok(seq(|rows|, i requires 0 <= i < |rows| =>
        if rows[i].key == k
        then rows[i].(cells := rows[i].cells[col := if zero then v else v - Cell(rows[i], col)])
        else rows[i]))
  }

  /** append_value: `col` of the rows keyed `k` gains `value` (or follows the time rule), and
      with a side the column's home/away split gains `value` too. A column the table lacks is a
      KeyError. */
  function AppendValue(u: Tables, t: TableId, k: Key, col: Stat, side: Option<Side>, value: int,
                       time: bool): (r: Result<Tables>)
    ensures r.Ok? ==> forall o :: o != t ==> r.value.Of(o) == u.Of(o)
    ensures r.Ok? ==> SameShape(u.Of(t), r.value.Of(t))
    ensures r.Err? <==> col !in ColumnSet(t) || (time && k !in KeysOf(u.Of(t)))
                        || (side.Some? && (Split(col, side.value).None?
                                           || Split(col, side.value).value !in ColumnSet(t)))
  {
    if col !in ColumnSet(t) then Err(KeyError)
    else
      var rows :- if time then SetTime(u.Of(t), k, col, value) else Ok(AddTo(u.Of(t), k, col, value));
      match side
      case None => Ok(u.With(t, rows))
      case Some(sd) =>
        match Split(col, sd)
        case None => Err(KeyError)
        case Some(sc) =>
          if sc !in ColumnSet(t) then Err(KeyError) else Ok(u.With(t, AddTo(rows, k, sc, value)))
  }

  /** The counter update without the time rule: the selected rows gain `value` in `col` and,
      with a side, in its split; every other cell of every row is as before. */
  lemma AppendValueAdds(u: Tables, t: TableId, k: Key, col: Stat, side: Option<Side>, value: int)
    requires AppendValue(u, t, k, col, side, value, false).Ok?
    ensures var rs := AppendValue(u, t, k, col, side, value, false).value.Of(t);
            forall i, c :: 0 <= i < |rs| ==>
              Cell(rs[i], c) == Cell(u.Of(t)[i], c) +
                (if u.Of(t)[i].key == k && c == col then value else 0) +
                (if u.Of(t)[i].key == k && side.Some? && Split(col, side.value) == Some(c) then value else 0)
  {
    var rows := AddTo(u.Of(t), k, col, value);
    var r := AppendValue(u, t, k, col, side, value, false).value;
    if side.None? {
      assert r == u.With(t, rows);
    } else {
      var sc := Split(col, side.value).value;
      assert r == u.With(t, AddTo(rows, k, sc, value));
      AddToTwice(u.Of(t), k, col, sc, value);
    }
  }

  /** Adding to a column and then to its split. */
  lemma AddToTwice(rows: seq<Row>, k: Key, col: Stat, sc: Stat, v: int)
    ensures var rs := AddTo(AddTo(rows, k, col, v), k, sc, v);
            forall i, c :: 0 <= i < |rs| ==>
              Cell(rs[i], c) == Cell(rows[i], c) + (if rows[i].key == k && c == col then v else 0)
                                + (if rows[i].key == k && c == sc then v else 0)
  {
  }

  /** The cell-by-cell meaning of the time rule for one row: entering at minute `a` and
      leaving at minute `b` (a != 0) leaves b - a in the cell. */
  lemma TimeRuleSpan(rows: seq<Row>, k: Key, col: Stat, a: int, b: int)
    requires k in KeysOf(rows) && a != 0
    requires forall i :: 0 <= i < |rows| && rows[i].key == k ==> Cell(rows[i], col) == 0
    ensures var r1 := SetTime(rows, k, col, a);
            r1.Ok? && SetTime(r1.value, k, col, b).Ok? &&
            forall i :: 0 <= i < |rows| && rows[i].key == k ==>
              Cell(SetTime(r1.value, k, col, b).value[i], col) == b - a
  {
    var r1 := SetTime(rows, k, col, a).value;
    assert KeysOf(r1) == KeysOf(rows) by {
      assert forall i :: 0 <= i < |rows| ==> r1[i].key == rows[i].key;
    }
    var f := FirstWith(r1, k);
    assert Cell(r1[f], col) == a;
  }

  /** Adding to a column every row already has leaves the rows' column sets alone. */
  lemma AddToKeepsColumns(rows: seq<Row>, k: Key, col: Stat, v: int, cols: set<Stat>)
    requires forall i :: 0 <= i < |rows| ==> rows[i].cells.Keys == cols
    requires col in cols
    ensures var rs := AddTo(rows, k, col, v);
            forall i :: 0 <= i < |rs| ==> rs[i].cells.Keys == cols
  {
  }

  lemma AddToKeepsWellFormed(t: TableId, rows: seq<Row>, k: Key, col: Stat, v: int)
    requires AllWellFormed(t, rows) && col in ColumnSet(t)
    ensures AllWellFormed(t, AddTo(rows, k, col, v))
  {
    AddToKeepsColumns(rows, k, col, v, ColumnSet(t));
  }

  lemma SetTimeKeepsColumns(rows: seq<Row>, k: Key, col: Stat, v: int, cols: set<Stat>)
    requires forall i :: 0 <= i < |rows| ==> rows[i].cells.Keys == cols
    requires col in cols && SetTime(rows, k, col, v).Ok?
    ensures var rs := SetTime(rows, k, col, v).value;
            forall i :: 0 <= i < |rs| ==> rs[i].cells.Keys == cols
  {
  }

  lemma SetTimeKeepsWellFormed(t: TableId, rows: seq<Row>, k: Key, col: Stat, v: int)
    requires AllWellFormed(t, rows) && col in ColumnSet(t) && SetTime(rows, k, col, v).Ok?
    ensures AllWellFormed(t, SetTime(rows, k, col, v).value)
  {
    SetTimeKeepsColumns(rows, k, col, v, ColumnSet(t));
  }

  /** Appending keeps every row carrying exactly its table's columns. */
  lemma AppendValueKeepsValid(u: Tables, t: TableId, k: Key, col: Stat, side: Option<Side>,
                              value: int, time: bool)
    requires u.Valid() && AppendValue(u, t, k, col, side, value, time).Ok?
    ensures AppendValue(u, t, k, col, side, value, time).value.Valid()
    ensures Reshaped(u, AppendValue(u, t, k, col, side, value, time).value)
  {
    assert AllWellFormed(t, u.Of(t));
    var rows := if time then SetTime(u.Of(t), k, col, value).value else AddTo(u.Of(t), k, col, value);
    if time {
      SetTimeKeepsWellFormed(t, u.Of(t), k, col, value);
    } else {
      AddToKeepsWellFormed(t, u.Of(t), k, col, value);
    }
    var rows2 := if side.None? then rows else AddTo(rows, k, Split(col, side.value).value, value);
    if side.Some? {
      AddToKeepsWellFormed(t, rows, k, Split(col, side.value).value, value);
    }
    var r := AppendValue(u, t, k, col, side, value, time).value;
    assert r == u.With(t, rows2);
    forall o ensures AllWellFormed(o, r.Of(o)) && SameShape(u.Of(o), r.Of(o)) {
      if o != t {
        assert r.Of(o) == u.Of(o);
      }
    }
  }

  /** The per-match tables `_teams`, `_players`, `_goalkeepers`, changed in place. */
  class MatchTables {
    var teams: seq<Row>
    var players: seq<Row>
    var keepers: seq<Row>

    function Snapshot(): Tables
      reads this
    {
      Tables(teams, players, keepers)
    }

    ghost predicate Valid()
      reads this
    {
      Snapshot().Valid()
    }

    /** `pd.DataFrame(columns=...)` three times: empty tables. */
    constructor ()
      ensures Valid() && Snapshot() == EmptyTables()
    {
      teams, players, keepers := [], [], [];
    }

    method Store(u: Tables)
      modifies this
      ensures Snapshot() == u
    {
      teams, players, keepers := u.teams, u.players, u.keepers;
    }

    /** init_row: appends a zero row to table `t`. */
    method InitRow(t: TableId, k: Key, name: string, date: string, team: string)
      modifies this
      requires Valid()
      ensures Valid()
      ensures Snapshot() == old(Snapshot()).With(t, old(Snapshot()).Of(t) + [NewRow(t, k, name, date, team)])
    {
      var u := Snapshot();
      Store(u.With(t, u.Of(t) + [NewRow(t, k, name, date, team)]));
      assert Snapshot().Of(t) == u.Of(t) + [NewRow(t, k, name, date, team)];
      forall o ensures AllWellFormed(o, Snapshot().Of(o)) {
        assert AllWellFormed(o, u.Of(o));
      }
    }

    /** append_value on table `t`; on an error the tables are as before. */
    method Append(t: TableId, k: Key, col: Stat, side: Option<Side>, value: int, time: bool)
      returns (err: Option<Error>)
      modifies this
      requires Valid()
      ensures Valid()
      ensures var r := AppendValue(old(Snapshot()), t, k, col, side, value, time);
              && (r.Ok? ==> err == None && Snapshot() == r.value)
              && (r.Err? ==> err == Some(r.error) && Snapshot() == old(Snapshot()))
    {
      var r := AppendValue(Snapshot(), t, k, col, side, value, time);
      if r.Err? {
        return Some(r.error);
      }
      AppendValueKeepsValid(Snapshot(), t, k, col, side, value, time);
      Store(r.value);
      err := None;
    }

    /** `df.loc[mask(k), col] = v` on table `t`. */
    method Set(t: TableId, k: Key, col: Stat, v: int)
      modifies this
      requires Valid() && col in ColumnSet(t)
      ensures Valid()
      ensures Snapshot() == old(Snapshot()).With(t, Assign(old(Snapshot()).Of(t), k, col, v))
    {
      var u := Snapshot();
      AssignKeepsWellFormed(t, u.Of(t), k, col, v);
      Store(u.With(t, Assign(u.Of(t), k, col, v)));
      forall o ensures AllWellFormed(o, Snapshot().Of(o)) {
        assert AllWellFormed(o, u.Of(o));
      }
    }

    /** `df.loc[mask(k), col] = base - row[col]` on table `t`. */
    method SetRebased(t: TableId, k: Key, col: Stat, base: int)
      modifies this
      requires Valid() && col in ColumnSet(t)
      ensures Valid()
      ensures Snapshot() == old(Snapshot()).With(t, Rebase(old(Snapshot()).Of(t), k, col, base))
    {
      var u := Snapshot();
      RebaseKeepsWellFormed(t, u.Of(t), k, col, base);
      Store(u.With(t, Rebase(u.Of(t), k, col, base)));
      forall o ensures AllWellFormed(o, Snapshot().Of(o)) {
        assert AllWellFormed(o, u.Of(o));
      }
    }
  }
}