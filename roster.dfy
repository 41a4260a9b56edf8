/** The match's players: init_players_in_match creates a zero row for every lineup slot that
    holds a name, at the player's next round (database_build.py:157-175), and postprocess
    commits those rounds to player_round_cache (database_build.py:301-317). */
module Roster {
  import opened Common
  import opened Schema
  import opened Feed
  import opened Ledger
  import opened Records

  /** player_rounds: (lineup name, season, team) to the round the player's row got. */
  type Rounds = map<(string, int, string), int>

  /** The name_to_url key of a filled slot: (name, season, the slot side's team). */
  function SlotKey(l: Lineup, s: Slot, season: int): (string, int, string)
    requires s in l.names
  {
    (l.names[s], season, TeamOf(l, s.side))
  }

  /** A filled slot's player id and table; name_to_url and player_pos raise KeyError. */
  function SlotPlayer(reg: Registry, l: Lineup, s: Slot, season: int): (r: Result<(string, TableId)>)
    requires s in l.names
    ensures r.Ok? <==> SlotKey(l, s, season) in reg.nameToUrl
                       && reg.nameToUrl[SlotKey(l, s, season)] in reg.playerPos
    ensures r.Ok? ==> r.value.0 == reg.nameToUrl[SlotKey(l, s, season)]
    ensures r.Err? ==> r.error == KeyError
  {
    var key := SlotKey(l, s, season);
    if key !in reg.nameToUrl then Err(KeyError)
    else
      var id := reg.nameToUrl[key];
      if id !in reg.playerPos then Err(KeyError) else Ok((id, TableFor(reg.playerPos[id])))
  }

  /** init_players_in_match over `slots` (corrected null test, see InitPlayersAsWritten): a
      zero row per filled slot, keyed (id, season, next round of the id), in the table of the
      player's position; `rounds` records the round under the slot's key. */
  function InitPlayers(u: Tables, reg: Registry, cache: RoundCache, l: Lineup, season: int, date: string,
                       slots: seq<Slot>, rounds: Rounds): Result<(Tables, Rounds)>
    decreases |slots|
  {
    if slots == [] then Ok((u, rounds))
    else
      var s := slots[0];
      if s !in l.names then InitPlayers(u, reg, cache, l, season, date, slots[1..], rounds)
      else
        var (id, t) :- SlotPlayer(reg, l, s, season);
        var rnd := NextRound(cache, id, season);
        var row := NewRow(t, Key(id, season, rnd), l.names[s], date, TeamOf(l, s.side));
        InitPlayers(u.With(t, u.Of(t) + [row]), reg, cache, l, season, date, slots[1..],
                    rounds[SlotKey(l, s, season) := rnd])
  }

  /** `not isnull(lineup[pl])` as written: `lineup` is the one-row DataFrame, so `isnull`
      yields a boolean Series, whose truth value pandas refuses with a ValueError whatever it
      holds. */
  function NotNullAsWritten(l: Lineup, s: Slot): (r: Result<bool>)
    ensures r == Err(ValueError)
  {
    Err(ValueError)
  }

  /** init_players_in_match as written: the first slot's null test decides the outcome
      before any row is created. */
  function InitPlayersAsWritten(u: Tables, reg: Registry, cache: RoundCache, l: Lineup, season: int,
                                date: string, slots: seq<Slot>, rounds: Rounds): Result<(Tables, Rounds)>
  {
    if slots == [] then Ok((u, rounds))
    else
      match NotNullAsWritten(l, slots[0])
      case Err(e) => Err(e)
      case Ok(_) => InitPlayers(u, reg, cache, l, season, date, slots, rounds)
  }

  /** As written, every match raises at the first lineup column (ap1), whatever the lineup:
      no match ever reaches its events. */
  lemma InitPlayersAsWrittenRaises(u: Tables, reg: Registry, cache: RoundCache, l: Lineup, season: int,
                                   date: string)
    ensures InitPlayersAsWritten(u, reg, cache, l, season, date, ProductSlots(), map[]) == Err(ValueError)
  {
    assert ProductSlots()[0] == Slot(Away, true, 1);
  }

  /** The ids of the filled slots among `ss` that name_to_url knows. */
  function IdsOf(reg: Registry, l: Lineup, season: int, ss: seq<Slot>): set<string> {
    set s | s in ss && s in l.names && SlotKey(l, s, season) in reg.nameToUrl :: reg.nameToUrl[SlotKey(l, s, season)]
  }

  /** Every filled slot of `ss` resolves, and its key carries the id's next round. */
  ghost predicate Resolved(reg: Registry, cache: RoundCache, l: Lineup, season: int, ss: seq<Slot>,
                           rounds: Rounds) {
    forall s :: s in ss && s in l.names ==>
      && SlotKey(l, s, season) in reg.nameToUrl
      && reg.nameToUrl[SlotKey(l, s, season)] in reg.playerPos
      && SlotKey(l, s, season) in rounds
      && rounds[SlotKey(l, s, season)] == NextRound(cache, reg.nameToUrl[SlotKey(l, s, season)], season)
  }

  /** The player records of a scope: both tables share player_round_cache. */
  function PlayerKeys(u: Tables): set<Key> {
    KeysOf(u.players) + KeysOf(u.keepers)
  }

  lemma KeysOfAppend(rows: seq<Row>, r: Row)
    ensures KeysOf(rows + [r]) == KeysOf(rows) + {r.key}
  {
    var rs := rows + [r];
    assert rs[|rows|] == r;
    forall k | k in KeysOf(rows) ensures k in KeysOf(rs) {
      var i :| 0 <= i < |rows| && rows[i].key == k;
      assert rs[i] == rows[i];
    }
  }

  /** Every recorded round is the next round of the key's id. */
  ghost predicate RoundsAreNext(reg: Registry, cache: RoundCache, season: int, rounds: Rounds) {
    forall key :: key in rounds ==>
      key in reg.nameToUrl && key.1 == season && rounds[key] == NextRound(cache, reg.nameToUrl[key], season)
  }

  /** What a successful init_players_in_match did: the team table is untouched, exactly one
      new record per resolved id appeared at the id's next round, every filled slot is
      resolved, and the rows keep their table's columns. */
  lemma InitPlayersFacts(u: Tables, reg: Registry, cache: RoundCache, l: Lineup, season: int,
                          date: string, slots: seq<Slot>, rounds: Rounds)
    requires InitPlayers(u, reg, cache, l, season, date, slots, rounds).Ok?
    requires RoundsAreNext(reg, cache, season, rounds)
    ensures var (v, r) := InitPlayers(u, reg, cache, l, season, date, slots, rounds).value;
            && v.teams == u.teams
            && RoundsAreNext(reg, cache, season, r)
            && PlayerKeys(v) == PlayerKeys(u) + NewKeys(cache, IdsOf(reg, l, season, slots), season)
            && Resolved(reg, cache, l, season, slots, r)
            && (forall key :: key in rounds ==> key in r)
            && (u.Valid() ==> v.Valid())
  {
    InitPlayersTables(u, reg, cache, l, season, date, slots, rounds);
    InitPlayersShape(u, reg, cache, l, season, date, slots, rounds);
    InitPlayersRounds(u, reg, cache, l, season, date, slots, rounds);
  }

  /** The tables after init_players_in_match: the new records and nothing else. */
  lemma {:induction false} InitPlayersTables(u: Tables, reg: Registry, cache: RoundCache, l: Lineup, season: int,
                                             date: string, slots: seq<Slot>, rounds: Rounds)
    requires InitPlayers(u, reg, cache, l, season, date, slots, rounds).Ok?
    ensures var v := InitPlayers(u, reg, cache, l, season, date, slots, rounds).value.0;
            PlayerKeys(v) == PlayerKeys(u) + NewKeys(cache, IdsOf(reg, l, season, slots), season)
    decreases |slots|
  {
    if slots != [] {
      var s := slots[0];
      var rest := slots[1..];
      if s !in l.names {
        InitPlayersTables(u, reg, cache, l, season, date, rest, rounds);
        IdsOfSkip(reg, l, season, slots);
      } else {
        var (id, t) := SlotPlayer(reg, l, s, season).value;
        var rnd := NextRound(cache, id, season);
        var row := NewRow(t, Key(id, season, rnd), l.names[s], date, TeamOf(l, s.side));
        var u1 := u.With(t, u.Of(t) + [row]);
        var rounds1 := rounds[SlotKey(l, s, season) := rnd];
        InitPlayersTables(u1, reg, cache, l, season, date, rest, rounds1);
        IdsOfTake(reg, l, season, slots);
        KeysOfAppend(u.Of(t), row);
        assert PlayerKeys(u1) == PlayerKeys(u) + {Key(id, season, rnd)};
      }
    }
  }

  /** init_players_in_match leaves the team table alone and adds only well-formed rows. */
  lemma {:induction false} InitPlayersShape(u: Tables, reg: Registry, cache: RoundCache, l: Lineup, season: int,
                                            date: string, slots: seq<Slot>, rounds: Rounds)
    requires InitPlayers(u, reg, cache, l, season, date, slots, rounds).Ok?
    ensures var v := InitPlayers(u, reg, cache, l, season, date, slots, rounds).value.0;
            v.teams == u.teams && (u.Valid() ==> v.Valid())
    decreases |slots|
  {
    if slots != [] {
      var s := slots[0];
      var rest := slots[1..];
      if s !in l.names {
        InitPlayersShape(u, reg, cache, l, season, date, rest, rounds);
      } else {
        var (id, t) := SlotPlayer(reg, l, s, season).value;
        var rnd := NextRound(cache, id, season);
        var row := NewRow(t, Key(id, season, rnd), l.names[s], date, TeamOf(l, s.side));
        var u1 := u.With(t, u.Of(t) + [row]);
        var rounds1 := rounds[SlotKey(l, s, season) := rnd];
        InitPlayersShape(u1, reg, cache, l, season, date, rest, rounds1);
        InitRowKeepsValid(u, t, row);
      }
    }
  }

  /** The rounds after init_players_in_match: every filled slot resolved at its id's next
      round, the earlier entries kept. */
  lemma {:induction false} InitPlayersRounds(u: Tables, reg: Registry, cache: RoundCache, l: Lineup, season: int,
                                             date: string, slots: seq<Slot>, rounds: Rounds)
    requires InitPlayers(u, reg, cache, l, season, date, slots, rounds).Ok?
    requires RoundsAreNext(reg, cache, season, rounds)
    ensures var r := InitPlayers(u, reg, cache, l, season, date, slots, rounds).value.1;
            && RoundsAreNext(reg, cache, season, r)
            && Resolved(reg, cache, l, season, slots, r)
            && (forall key :: key in rounds ==> key in r)
    decreases |slots|
  {
    if slots != [] {
      var s := slots[0];
      var rest := slots[1..];
      if s !in l.names {
        InitPlayersRounds(u, reg, cache, l, season, date, rest, rounds);
      } else {
        var (id, t) := SlotPlayer(reg, l, s, season).value;
        var rnd := NextRound(cache, id, season);
        var row := NewRow(t, Key(id, season, rnd), l.names[s], date, TeamOf(l, s.side));
        var u1 := u.With(t, u.Of(t) + [row]);
        var rounds1 := rounds[SlotKey(l, s, season) := rnd];
        InitPlayersRounds(u1, reg, cache, l, season, date, rest, rounds1);
        assert SlotKey(l, s, season) in rounds1;
      }
    }
  }

  lemma IdsOfSkip(reg: Registry, l: Lineup, season: int, ss: seq<Slot>)
    requires ss != [] && ss[0] !in l.names
    ensures IdsOf(reg, l, season, ss) == IdsOf(reg, l, season, ss[1..])
  {
    forall id | id in IdsOf(reg, l, season, ss) ensures id in IdsOf(reg, l, season, ss[1..]) {
      var s :| s in ss && s in l.names && SlotKey(l, s, season) in reg.nameToUrl
               && reg.nameToUrl[SlotKey(l, s, season)] == id;
      assert s in ss[1..];
    }
  }

  lemma IdsOfTake(reg: Registry, l: Lineup, season: int, ss: seq<Slot>)
    requires ss != [] && ss[0] in l.names && SlotKey(l, ss[0], season) in reg.nameToUrl
    ensures IdsOf(reg, l, season, ss) == {reg.nameToUrl[SlotKey(l, ss[0], season)]} + IdsOf(reg, l, season, ss[1..])
  {
    forall id | id in IdsOf(reg, l, season, ss)
      ensures id in {reg.nameToUrl[SlotKey(l, ss[0], season)]} + IdsOf(reg, l, season, ss[1..])
    {
      var s :| s in ss && s in l.names && SlotKey(l, s, season) in reg.nameToUrl
               && reg.nameToUrl[SlotKey(l, s, season)] == id;
      if s != ss[0] {
        assert s in ss[1..];
      }
    }
  }

  lemma InitRowKeepsValid(u: Tables, t: TableId, row: Row)
    requires WellFormed(t, row)
    ensures u.Valid() ==> u.With(t, u.Of(t) + [row]).Valid()
  {
    if u.Valid() {
      var v := u.With(t, u.Of(t) + [row]);
      forall o ensures AllWellFormed(o, v.Of(o)) {
        assert AllWellFormed(o, u.Of(o));
      }
    }
  }

  /** The order postprocess commits in: hp1..hp11, hs1..hs12, ap1..ap11, as1..as12. */
  function CommitSlots(): seq<Slot> {
    SideSlots(Home) + SideSlots(Away)
  }

  /** postprocess's loop: for every filled slot, player_round_cache[(id, season)] takes the
      round player_rounds recorded for the slot's key. */
  function CommitPlayers(cache: RoundCache, reg: Registry, l: Lineup, season: int, rounds: Rounds,
                         slots: seq<Slot>): Result<RoundCache>
    decreases |slots|
  {
    if slots == [] then Ok(cache)
    else
      var s := slots[0];
      if s !in l.names then CommitPlayers(cache, reg, l, season, rounds, slots[1..])
      else
        var key := SlotKey(l, s, season);
        if key !in reg.nameToUrl || key !in rounds then Err(KeyError)
        else CommitPlayers(cache[(reg.nameToUrl[key], season) := rounds[key]], reg, l, season, rounds, slots[1..])
  }

  /** `cache` with every id of `ids` set to its next round under `base`. */
  function Override(cache: RoundCache, base: RoundCache, ids: set<string>, s: int): (c: RoundCache)
    ensures c.Keys == cache.Keys + set id | id in ids :: (id, s)
  {
    map k | k in cache.Keys + (set id | id in ids :: (id, s)) ::
      if k.1 == s && k.0 in ids then NextRound(base, k.0, s) else cache[k]
  }

  /** Committing resolved slots writes each id's next round under the cache the rounds were
      peeked from. */
  lemma {:induction false} CommitPlayersOverrides(cache: RoundCache, base: RoundCache, reg: Registry, l: Lineup,
                                                  season: int, rounds: Rounds, slots: seq<Slot>)
    requires Resolved(reg, base, l, season, slots, rounds)
    ensures CommitPlayers(cache, reg, l, season, rounds, slots)
            == Ok(Override(cache, base, IdsOf(reg, l, season, slots), season))
    decreases |slots|
  {
    if slots != [] {
      var s := slots[0];
      var rest := slots[1..];
      assert Resolved(reg, base, l, season, rest, rounds);
      if s !in l.names {
        CommitPlayersOverrides(cache, base, reg, l, season, rounds, rest);
        IdsOfSkip(reg, l, season, slots);
      } else {
        var key := SlotKey(l, s, season);
        var id := reg.nameToUrl[key];
        assert rounds[key] == NextRound(base, id, season);
        var c1 := cache[(id, season) := NextRound(base, id, season)];
        CommitPlayersOverrides(c1, base, reg, l, season, rounds, rest);
        IdsOfTake(reg, l, season, slots);
        OverrideStep(cache, base, IdsOf(reg, l, season, rest), season, id);
      }
    } else {
      assert IdsOf(reg, l, season, slots) == {};
      assert Override(cache, base, {}, season) == cache;
    }
  }

  lemma OverrideStep(cache: RoundCache, base: RoundCache, ids: set<string>, s: int, id: string)
    ensures Override(cache[(id, s) := NextRound(base, id, s)], base, ids, s) == Override(cache, base, {id} + ids, s)
  {
  }

  lemma CommitSlotsCover(s: Slot)
    ensures s in CommitSlots() <==> ValidSlot(s)
  {
    var side := s.side;
    if ValidSlot(s) {
      var i := if s.starter then s.nr - 1 else s.nr + 10;
      var ss := SideSlots(side);
      assert ss[i] == s;
      assert side == Home || side == Away;
      if side == Home {
        assert CommitSlots()[i] == s;
      } else {
        assert CommitSlots()[23 + i] == s;
      }
    }
  }

  lemma SameSlotsSameIds(reg: Registry, l: Lineup, season: int, ss: seq<Slot>, ts: seq<Slot>)
    requires forall s :: s in ss <==> s in ts
    ensures IdsOf(reg, l, season, ss) == IdsOf(reg, l, season, ts)
  {
  }

  /** The players of a match, as the ledger sees them: every filled lineup column's id. */
  function MatchIds(reg: Registry, l: Lineup, season: int): set<string> {
    IdsOf(reg, l, season, ProductSlots())
  }

  /** The ledger across init_players_in_match and postprocess: when the rows were created,
      the commit goes through and sets every player of the match to exactly the round his
      new record got, and the new records are exactly those rounds. */
  lemma RosterLedger(u: Tables, reg: Registry, cache: RoundCache, l: Lineup, season: int, date: string)
    requires InitPlayers(u, reg, cache, l, season, date, ProductSlots(), map[]).Ok?
    ensures var (v, r) := InitPlayers(u, reg, cache, l, season, date, ProductSlots(), map[]).value;
            && v.teams == u.teams
            && PlayerKeys(v) == PlayerKeys(u) + NewKeys(cache, MatchIds(reg, l, season), season)
            && CommitPlayers(cache, reg, l, season, r, CommitSlots()) == Ok(CommitAll(cache, MatchIds(reg, l, season), season))
            && (u.Valid() ==> v.Valid())
  {
    var (v, r) := InitPlayers(u, reg, cache, l, season, date, ProductSlots(), map[]).value;
    InitPlayersFacts(u, reg, cache, l, season, date, ProductSlots(), map[]);
    forall s ensures s in ProductSlots() <==> s in CommitSlots() {
      ProductSlotsCover(s);
      CommitSlotsCover(s);
    }
    SameSlotsSameIds(reg, l, season, ProductSlots(), CommitSlots());
    assert Resolved(reg, cache, l, season, CommitSlots(), r);
    CommitPlayersOverrides(cache, cache, reg, l, season, r, CommitSlots());
  }

  /** init_players_in_match in place: one init_row per filled column, in the lineup's column
      order. After an error only the error is promised: the caller drops the match. */
  method InitPlayersIn(m: MatchTables, reg: Registry, cache: RoundCache, l: Lineup, season: int, date: string)
    returns (rounds: Rounds, err: Option<Error>)
    modifies m
    requires m.Valid()
    ensures m.Valid()
    ensures var r := InitPlayers(old(m.Snapshot()), reg, cache, l, season, date, ProductSlots(), map[]);
            && (r.Ok? ==> err == None && (m.Snapshot(), rounds) == r.value)
            && (r.Err? ==> err == Some(r.error))
  {
    var slots := ProductSlots();
    rounds := map[];
    var i := 0;
    while i < |slots|
      invariant 0 <= i <= |slots|
      invariant m.Valid()
      invariant InitPlayers(old(m.Snapshot()), reg, cache, l, season, date, slots, map[])
                == InitPlayers(m.Snapshot(), reg, cache, l, season, date, slots[i..], rounds)
    {
      assert slots[i..][1..] == slots[i + 1..];
      var s := slots[i];
      if s in l.names {
        var p := SlotPlayer(reg, l, s, season);
        if p.Err? {
          return rounds, Some(p.error);
        }
        var (id, t) := p.value;
        var rnd := NextRound(cache, id, season);
        rounds := rounds[SlotKey(l, s, season) := rnd];
        m.InitRow(t, Key(id, season, rnd), l.names[s], date, TeamOf(l, s.side));
      }
      i := i + 1;
    }
    err := None;
  }
}
