/** The name-matching helpers that build valid_player_names, the table translating a
    player's name as the event commentary spells it into the name his lineup row uses.
    A set of names read from the events may hold NaN (a substitution with a missing
    player), so its elements are `Option<string>` with None for NaN. */
module Translator {
  import opened Common
  import opened Feed
  import Attribution

  /** `(player name in the events, team, season)`, the key of valid_player_names. */
  type NameKey = (string, string, int)

  // ---------------------------------------------------------------------------------------
  // add_players_to_set

  /** The named (non-NaN) `player` and `player2` of an event. */
  function Named(ev: Event): set<Option<string>> {
    (if ev.player.Some? then {ev.player} else {}) + (if ev.player2.Some? then {ev.player2} else {})
  }

  /** One `try: isnan(...)` block: a name goes to the event team's set, or to the
      opponent's when the event credits the opponent; NaN is skipped. */
  function AddName(name: Option<string>, toEvent: bool, sets: (set<Option<string>>, set<Option<string>>))
    : (set<Option<string>>, set<Option<string>>)
  {
    if name.None? then sets
    else if toEvent then (sets.0 + {name}, sets.1)
    else (sets.0, sets.1 + {name})
  }

  /** add_players_to_set: the updated (ev_set, op_set). A substitution adds both its
      players, NaN included, to the event team's set; any other event sends its named
      players to one side, the opponent's for corners and own goals. */
  function AddPlayers(ev: Event, evSet: set<Option<string>>, opSet: set<Option<string>>)
    : (r: (set<Option<string>>, set<Option<string>>))
    ensures evSet <= r.0 && opSet <= r.1
    ensures ev.eventType == 7 ==> r.0 == evSet + {ev.playerIn, ev.playerOut} && r.1 == opSet
    ensures ev.eventType != 7 && !Attribution.CreditsOpponent(ev) ==> r.0 == evSet + Named(ev) && r.1 == opSet
    ensures ev.eventType != 7 && Attribution.CreditsOpponent(ev) ==> r.0 == evSet && r.1 == opSet + Named(ev)
  {
    if ev.eventType == 7 then (evSet + {ev.playerIn, ev.playerOut}, opSet)
    else
      var notSwitched := ev.eventType != 2 && ev.eventType2 != Some(15);
      AddName(ev.player2, notSwitched, AddName(ev.player, notSwitched, (evSet, opSet)))
  }

  /** Outside substitutions a NaN never enters either set, and every name added is the
      event's `player` or `player2`. */
  lemma AddPlayersNamesOnly(ev: Event, evSet: set<Option<string>>, opSet: set<Option<string>>)
    requires ev.eventType != 7
    ensures var r := AddPlayers(ev, evSet, opSet);
            forall x :: x in (r.0 - evSet) + (r.1 - opSet) ==> x.Some? && (x == ev.player || x == ev.player2)
  {
  }

  /** A name the event mentions lands on exactly one side: the side find_name searches
      first when it attributes the event. */
  lemma AddPlayersOneSide(ev: Event, evSet: set<Option<string>>, opSet: set<Option<string>>, x: Option<string>)
    requires ev.eventType != 7 && x.Some? && (x == ev.player || x == ev.player2)
    requires x !in evSet && x !in opSet
    ensures var r := AddPlayers(ev, evSet, opSet);
            (x in r.0 <==> !Attribution.CreditsOpponent(ev)) && (x in r.1 <==> Attribution.CreditsOpponent(ev))
  {
  }

  // ---------------------------------------------------------------------------------------
  // filter_out_correct

  /** `valid_player_names.get((pl, team, season), pl)`; a NaN is never a key. */
  function Translation(valid: map<NameKey, string>, pl: Option<string>, team: string, season: int)
    : (t: Option<string>)
    ensures pl.None? ==> t.None?
    ensures pl.Some? && (pl.value, team, season) in valid ==> t == Some(valid[(pl.value, team, season)])
    ensures pl.Some? && (pl.value, team, season) !in valid ==> t == pl
  {
    if pl.Some? && (pl.value, team, season) in valid then Some(valid[(pl.value, team, season)]) else pl
  }

  /** The translation names a player of the lineup. */
  predicate Matched(valid: map<NameKey, string>, pl: Option<string>, lineup: set<string>, team: string, season: int) {
    var t := Translation(valid, pl, team, season);
    t.Some? && t.value in lineup
  }

  /** filter_out_correct: the players of the set whose translation is not in the lineup. */
  function FilterOutCorrect(valid: map<NameKey, string>, players: set<Option<string>>, lineup: set<string>,
                            team: string, season: int): (unmatched: set<Option<string>>)
  {
    set pl | pl in players && !Matched(valid, pl, lineup, team, season)
  }

  /** The unmatched players are a subset of the input, and a player is left out of them
      exactly when his translation (his own name by default) is in the lineup. */
  lemma FilterOutCorrectExact(valid: map<NameKey, string>, players: set<Option<string>>, lineup: set<string>,
                              team: string, season: int)
    ensures var u := FilterOutCorrect(valid, players, lineup, team, season);
            && u <= players
            && (forall pl :: pl in players && pl.Some? && (pl.value, team, season) !in valid ==>
                              (pl in u <==> pl.value !in lineup))
            && (forall pl :: pl in players && pl.Some? && (pl.value, team, season) in valid ==>
                              (pl in u <==> valid[(pl.value, team, season)] !in lineup))
            && (None in players ==> None in u)
  {
  }

  // ---------------------------------------------------------------------------------------
  // append_to_dictionary and check_fit

  /** append_to_dictionary: a new key gets a one-element list, an existing key's list grows
      by one at the end, and no other key changes. */
  function AppendTo<K, V>(d: map<K, seq<V>>, k: K, e: V): (r: map<K, seq<V>>)
    ensures r.Keys == d.Keys + {k}
    ensures r[k] == Get(d, k, []) + [e]
    ensures forall x :: x in d && x != k ==> r[x] == d[x]
  {
    if k !in d then d[k := [e]] else d[k := d[k] + [e]]
  }

  /** Reading a dictionary after an append, with the empty list for a missing key. */
  lemma AppendToGet<K, V>(d: map<K, seq<V>>, k: K, e: V, x: K)
    ensures Get(AppendTo(d, k, e), x, []) == Get(d, x, []) + (if x == k then [e] else [])
  {
  }

  /** check_fit: the loop over `to_fit` stops at the first word missing from `full_name`. */
  function CheckFit(full: seq<string>, toFit: seq<string>): (b: bool)
    ensures b <==> forall w :: w in toFit ==> w in full
    decreases |toFit|
  {
    if toFit == [] then true
    else if toFit[0] !in full then false
    else CheckFit(full, toFit[1..])
  }

  /** Every list of words fits itself and the empty list fits anything. */
  lemma CheckFitBasics(full: seq<string>)
    ensures CheckFit(full, full) && CheckFit(full, [])
  {
  }

  // ---------------------------------------------------------------------------------------
  // The word-match index of fit_rest_names

  /** One name's words are all among the other's, the other having more words. */
  predicate WordMatch(p: string, q: string) {
    var a, b := Words(p), Words(q);
    (|a| > |b| && CheckFit(a, b)) || (|a| < |b| && CheckFit(b, a))
  }

  /** The relation is symmetric and never pairs names with as many words. */
  lemma WordMatchSymmetric(p: string, q: string)
    ensures WordMatch(p, q) <==> WordMatch(q, p)
    ensures WordMatch(p, q) ==> |Words(p)| != |Words(q)|
  {
  }

  /** The lineup names that match event name `p`, in lineup order. */
  function Matches(p: string, lineup: seq<string>): seq<string> {
    Filter(lineup, (q: string) => WordMatch(p, q))
  }

  /** The event names that match lineup name `q`, in event-set order. */
  function Matchers(players: seq<string>, q: string): seq<string> {
    Filter(players, (p: string) => WordMatch(p, q))
  }

  predicate Distinct<T(==)>(s: seq<T>) {
    forall i, j :: 0 <= i < j < |s| ==> s[i] != s[j]
  }

  /** Filtering a sequence one element longer. */
  lemma {:induction false} FilterSnoc<T(!new)>(s: seq<T>, x: T, f: T -> bool)
    ensures Filter(s + [x], f) == Filter(s, f) + (if f(x) then [x] else [])
    decreases |s|
  {
    if s != [] {
      assert (s + [x])[1..] == s[1..] + [x];
      FilterSnoc(s[1..], x, f);
    }
  }

  lemma PrefixSnoc<T>(s: seq<T>, i: nat)
    requires i < |s|
    ensures s[..i + 1] == s[..i] + [s[i]]
  {
  }

  /** The index entries of the event names taken so far (the first `i`). */
  ghost predicate IndexedUpTo(s2l: map<string, seq<string>>, l2s: map<string, seq<string>>,
                        players: seq<string>, lineup: seq<string>, i: nat)
    requires i <= |players|
  {
    && (forall p :: Get(s2l, p, []) == (if p in players[..i] then Matches(p, lineup) else []))
    && (forall q :: Get(l2s, q, []) == (if q in lineup then Matchers(players[..i], q) else []))
    && NoEmptyLists(s2l) && NoEmptyLists(l2s)
  }

  /** The first loop of fit_rest_names: every pair of an event name and a lineup name that
      match by words is appended to both dictionaries. `players` and `lineup` enumerate the
      two sets in their iteration order. */
  method WordMatchIndex(players: seq<string>, lineup: seq<string>)
    returns (s2l: map<string, seq<string>>, l2s: map<string, seq<string>>)
    requires Distinct(players) && Distinct(lineup)
    ensures forall p :: Get(s2l, p, []) == (if p in players then Matches(p, lineup) else [])
    ensures forall q :: Get(l2s, q, []) == (if q in lineup then Matchers(players, q) else [])
    ensures forall p :: p in s2l <==> p in players && Matches(p, lineup) != []
    ensures forall q :: q in l2s <==> q in lineup && Matchers(players, q) != []
  {
    s2l, l2s := map[], map[];
    var i := 0;
    while i < |players|
      invariant i <= |players|
      invariant IndexedUpTo(s2l, l2s, players, lineup, i)
    {
      s2l, l2s := IndexOne(s2l, l2s, players, lineup, i);
      i := i + 1;
    }
    assert players[..i] == players;
    forall p ensures p in s2l <==> p in players && Matches(p, lineup) != [] {
      assert Get(s2l, p, []) == (if p in players then Matches(p, lineup) else []);
    }
    forall q ensures q in l2s <==> q in lineup && Matchers(players, q) != [] {
      assert Get(l2s, q, []) == (if q in lineup then Matchers(players, q) else []);
    }
  }

  /** No key of the dictionary holds an empty list: keys appear with their first entry. */
  ghost predicate NoEmptyLists<K, V>(m: map<K, seq<V>>) {
    forall x :: x in m ==> m[x] != []
  }

  /** The inner loop's state after the first `j` lineup names, for event name `p`. */
  ghost predicate IndexedPairs(s2l: map<string, seq<string>>, l2s: map<string, seq<string>>,
                               s2l0: map<string, seq<string>>, l2s0: map<string, seq<string>>,
                               p: string, lineup: seq<string>, j: nat)
    requires j <= |lineup|
  {
    && (forall x :: x != p ==> Get(s2l, x, []) == Get(s2l0, x, []))
    && Get(s2l, p, []) == Matches(p, lineup[..j])
    && (forall q :: Get(l2s, q, []) ==
                    Get(l2s0, q, []) + (if q in lineup[..j] && WordMatch(p, q) then [p] else []))
    && NoEmptyLists(s2l) && NoEmptyLists(l2s)
  }

  /** The inner loop for event name `players[i]`, over the lineup names. */
  method IndexOne(s2l0: map<string, seq<string>>, l2s0: map<string, seq<string>>,
                  players: seq<string>, lineup: seq<string>, i: nat)
    returns (s2l: map<string, seq<string>>, l2s: map<string, seq<string>>)
    requires i < |players| && Distinct(players) && Distinct(lineup)
    requires IndexedUpTo(s2l0, l2s0, players, lineup, i)
    ensures IndexedUpTo(s2l, l2s, players, lineup, i + 1)
  {
    var p := players[i];
    s2l, l2s := s2l0, l2s0;
    var j := 0;
    while j < |lineup|
      invariant j <= |lineup|
      invariant IndexedPairs(s2l, l2s, s2l0, l2s0, p, lineup, j)
    {
      ghost var s2lBefore, l2sBefore := s2l, l2s;
      s2l, l2s := IndexPair(s2l, l2s, p, lineup[j]);
      IndexedPairsStep(s2lBefore, l2sBefore, s2l, l2s, s2l0, l2s0, p, lineup, j);
      j := j + 1;
    }
    IndexedOneDone(s2l, l2s, s2l0, l2s0, players, lineup, i);
  }

  /** The two exclusive tests of one pair: the pair is appended to both dictionaries once
      when the names match by words, and not at all otherwise. */
  method IndexPair(s2l0: map<string, seq<string>>, l2s0: map<string, seq<string>>, p: string, q: string)
    returns (s2l: map<string, seq<string>>, l2s: map<string, seq<string>>)
    ensures forall x :: Get(s2l, x, []) == Get(s2l0, x, []) + (if x == p && WordMatch(p, q) then [q] else [])
    ensures forall x :: Get(l2s, x, []) == Get(l2s0, x, []) + (if x == q && WordMatch(p, q) then [p] else [])
    ensures NoEmptyLists(s2l0) ==> NoEmptyLists(s2l)
    ensures NoEmptyLists(l2s0) ==> NoEmptyLists(l2s)
  {
    s2l, l2s := s2l0, l2s0;
    var pl, pn := Words(p), Words(q);
    PairTests(p, q);
    if |pl| > |pn| && CheckFit(pl, pn) {
      s2l, l2s := AppendBoth(s2l, l2s, p, q);
    }
    if |pl| < |pn| && CheckFit(pn, pl) {
      s2l, l2s := AppendBoth(s2l, l2s, p, q);
    }
  }

  /** Lineup name `q` appended to the list of `p`, and `p` to the list of `q`. */
  method AppendBoth(s2l0: map<string, seq<string>>, l2s0: map<string, seq<string>>, p: string, q: string)
    returns (s2l: map<string, seq<string>>, l2s: map<string, seq<string>>)
    ensures forall x :: Get(s2l, x, []) == Get(s2l0, x, []) + (if x == p then [q] else [])
    ensures forall x :: Get(l2s, x, []) == Get(l2s0, x, []) + (if x == q then [p] else [])
    ensures NoEmptyLists(s2l0) ==> NoEmptyLists(s2l)
    ensures NoEmptyLists(l2s0) ==> NoEmptyLists(l2s)
  {
    s2l := AppendTo(s2l0, p, q);
    l2s := AppendTo(l2s0, q, p);
  }

  /** The two tests exclude each other and together are the word match. */
  lemma PairTests(p: string, q: string)
    ensures var pl, pn := Words(p), Words(q);
            && !(|pl| > |pn| && |pl| < |pn|)
            && (WordMatch(p, q) <==> (|pl| > |pn| && CheckFit(pl, pn)) || (|pl| < |pn| && CheckFit(pn, pl)))
  {
  }

  lemma IndexedPairsStep(s2l1: map<string, seq<string>>, l2s1: map<string, seq<string>>,
                         s2l: map<string, seq<string>>, l2s: map<string, seq<string>>,
                         s2l0: map<string, seq<string>>, l2s0: map<string, seq<string>>,
                         p: string, lineup: seq<string>, j: nat)
    requires j < |lineup| && Distinct(lineup)
    requires IndexedPairs(s2l1, l2s1, s2l0, l2s0, p, lineup, j)
    requires forall x :: Get(s2l, x, []) == Get(s2l1, x, []) + (if x == p && WordMatch(p, lineup[j]) then [lineup[j]] else [])
    requires forall x :: Get(l2s, x, []) == Get(l2s1, x, []) + (if x == lineup[j] && WordMatch(p, lineup[j]) then [p] else [])
    requires NoEmptyLists(s2l) && NoEmptyLists(l2s)
    ensures IndexedPairs(s2l, l2s, s2l0, l2s0, p, lineup, j + 1)
  {
    PrefixSnoc(lineup, j);
    MatchesStep(s2l1, s2l, s2l0, p, lineup, j);
    MatchersStep(l2s1, l2s, l2s0, p, lineup, j);
  }

  /** The event name's own list grows by the matching lineup name. */
  lemma MatchesStep(s2l1: map<string, seq<string>>, s2l: map<string, seq<string>>, s2l0: map<string, seq<string>>,
                    p: string, lineup: seq<string>, j: nat)
    requires j < |lineup|
    requires forall x :: x != p ==> Get(s2l1, x, []) == Get(s2l0, x, [])
    requires Get(s2l1, p, []) == Matches(p, lineup[..j])
    requires forall x :: Get(s2l, x, []) == Get(s2l1, x, []) + (if x == p && WordMatch(p, lineup[j]) then [lineup[j]] else [])
    ensures forall x :: x != p ==> Get(s2l, x, []) == Get(s2l0, x, [])
    ensures Get(s2l, p, []) == Matches(p, lineup[..j + 1])
  {
    PrefixSnoc(lineup, j);
    FilterSnoc(lineup[..j], lineup[j], (q': string) => WordMatch(p, q'));
  }

  /** Only the lineup name taken at this step gains the event name, once. */
  lemma MatchersStep(l2s1: map<string, seq<string>>, l2s: map<string, seq<string>>, l2s0: map<string, seq<string>>,
                     p: string, lineup: seq<string>, j: nat)
    requires j < |lineup| && Distinct(lineup)
    requires forall q :: Get(l2s1, q, []) ==
                         Get(l2s0, q, []) + (if q in lineup[..j] && WordMatch(p, q) then [p] else [])
    requires forall x :: Get(l2s, x, []) == Get(l2s1, x, []) + (if x == lineup[j] && WordMatch(p, lineup[j]) then [p] else [])
    ensures forall q :: Get(l2s, q, []) ==
                        Get(l2s0, q, []) + (if q in lineup[..j + 1] && WordMatch(p, q) then [p] else [])
  {
    PrefixSnoc(lineup, j);
    assert lineup[j] !in lineup[..j];
  }

  lemma IndexedOneDone(s2l: map<string, seq<string>>, l2s: map<string, seq<string>>,
                       s2l0: map<string, seq<string>>, l2s0: map<string, seq<string>>,
                       players: seq<string>, lineup: seq<string>, i: nat)
    requires i < |players| && Distinct(players)
    requires IndexedUpTo(s2l0, l2s0, players, lineup, i)
    requires IndexedPairs(s2l, l2s, s2l0, l2s0, players[i], lineup, |lineup|)
    ensures IndexedUpTo(s2l, l2s, players, lineup, i + 1)
  {
    var p := players[i];
    assert p !in players[..i];
    assert lineup[..|lineup|] == lineup;
    PrefixSnoc(players, i);
    forall q ensures Get(l2s, q, []) == (if q in lineup then Matchers(players[..i + 1], q) else []) {
      FilterSnoc(players[..i], p, (p': string) => WordMatch(p', q));
    }
  }

  /** The index is symmetric: lineup name `q` is listed for event name `p` exactly when `p`
      is listed for `q`; every listed name comes from the other set. */
  lemma IndexSymmetric(players: seq<string>, lineup: seq<string>, p: string, q: string)
    requires p in players && q in lineup
    ensures q in Matches(p, lineup) <==> p in Matchers(players, q)
    ensures q in Matches(p, lineup) <==> WordMatch(p, q)
  {
    FilterMembers(lineup, (q': string) => WordMatch(p, q'));
    FilterMembers(players, (p': string) => WordMatch(p', q));
  }

  /** The index lists only lineup names. */
  predicate IndexInto(s2l: map<string, seq<string>>, lineup: set<string>) {
    forall p :: p in s2l ==> forall q :: q in s2l[p] ==> q in lineup
  }

  lemma WordMatchIndexInto(players: seq<string>, lineup: seq<string>, s2l: map<string, seq<string>>)
    requires forall p :: Get(s2l, p, []) == (if p in players then Matches(p, lineup) else [])
    ensures IndexInto(s2l, set q | q in lineup)
  {
    forall p, q | p in s2l && q in s2l[p] ensures q in lineup {
      assert Get(s2l, p, []) == s2l[p];
      FilterMembers(lineup, (q': string) => WordMatch(p, q'));
    }
  }

  // ---------------------------------------------------------------------------------------
  // resolve_match

  /** How resolve_match settles an event name. The distance rule and the database-mistake
      rule are taken as given (see the README); the others are decided here. */
  datatype Pairing =
    | ByWords(name: string)
    | ByDistance(name: string)
    | ByPreviousSeason(name: string)
    | ByMistake
    | Unpaired

  predicate Records(p: Pairing) {
    p.ByWords? || p.ByDistance? || p.ByPreviousSeason?
  }

  /** The word-match rule: one candidate, itself matched by one event name. */
  predicate UniqueByWords(pl: string, s2l: map<string, seq<string>>, l2s: map<string, seq<string>>) {
    |Get(s2l, pl, [])| == 1 && |Get(l2s, s2l[pl][0], [])| == 1
  }

  /** resolve_match's rules in order. `dist` is the candidate the Levenshtein rule accepts,
      if any; building the two best distances needs two lineup names. */
  function ResolveName(valid: map<NameKey, string>, pl: string, lineup: set<string>, otherLineup: set<string>,
                   team: string, otherTeam: string, season: int,
                   s2l: map<string, seq<string>>, l2s: map<string, seq<string>>, dist: Option<string>)
    : Result<Pairing>
  {
    if UniqueByWords(pl, s2l, l2s) then Ok(ByWords(s2l[pl][0]))
    else if |lineup| < 2 then Err(IndexError)
    else if dist.Some? then Ok(ByDistance(dist.value))
    else if (pl, team, season - 1) in valid && valid[(pl, team, season - 1)] in lineup then
      Ok(ByPreviousSeason(valid[(pl, team, season - 1)]))
    else if Get(valid, (pl, otherTeam, season), pl) in otherLineup then Ok(ByMistake)
    else Ok(Unpaired)
  }

  /** The table after a pairing: only the key of this name, team and season is written. */
  function Recorded(valid: map<NameKey, string>, key: NameKey, p: Pairing): map<NameKey, string> {
    if Records(p) then valid[key := p.name] else valid
  }

  /** The word-match rule applies exactly when the name has one candidate with one event
      name, and then the candidate is recorded. */
  lemma ResolveByWords(valid: map<NameKey, string>, pl: string, lineup: set<string>, otherLineup: set<string>,
                       team: string, otherTeam: string, season: int,
                       s2l: map<string, seq<string>>, l2s: map<string, seq<string>>, dist: Option<string>)
    ensures var r := ResolveName(valid, pl, lineup, otherLineup, team, otherTeam, season, s2l, l2s, dist);
            (r.Ok? && r.value.ByWords?) <==> UniqueByWords(pl, s2l, l2s)
    ensures UniqueByWords(pl, s2l, l2s) ==>
              var r := ResolveName(valid, pl, lineup, otherLineup, team, otherTeam, season, s2l, l2s, dist);
              r == Ok(ByWords(s2l[pl][0]))
              && Recorded(valid, (pl, team, season), r.value)[(pl, team, season)] == s2l[pl][0]
  {
  }

  /** Without a word match or an accepted distance, a name paired in the previous season
      whose old translation is in the lineup reuses it and counts as found. */
  lemma ResolveByPreviousSeason(valid: map<NameKey, string>, pl: string, lineup: set<string>, otherLineup: set<string>,
                                team: string, otherTeam: string, season: int,
                                s2l: map<string, seq<string>>, l2s: map<string, seq<string>>)
    requires !UniqueByWords(pl, s2l, l2s) && |lineup| >= 2
    requires (pl, team, season - 1) in valid && valid[(pl, team, season - 1)] in lineup
    ensures var r := ResolveName(valid, pl, lineup, otherLineup, team, otherTeam, season, s2l, l2s, None);
            && r == Ok(ByPreviousSeason(valid[(pl, team, season - 1)]))
            && Recorded(valid, (pl, team, season), r.value)[(pl, team, season)] == valid[(pl, team, season - 1)]
  {
  }

  /** Every rule writes at most the one key; the others keep their translations. */
  lemma RecordedOnlyKey(valid: map<NameKey, string>, key: NameKey, p: Pairing)
    ensures Recorded(valid, key, p).Keys == valid.Keys + (if Records(p) then {key} else {})
    ensures forall k :: k in valid && k != key ==> Recorded(valid, key, p)[k] == valid[k]
  {
  }

  /** A name the rules record is a name of the lineup, so filter_out_correct no longer
      reports the player as unmatched for this team and season. */
  lemma ResolvedIsMatched(valid: map<NameKey, string>, pl: string, lineup: set<string>, otherLineup: set<string>,
                          team: string, otherTeam: string, season: int,
                          s2l: map<string, seq<string>>, l2s: map<string, seq<string>>, dist: Option<string>)
    requires IndexInto(s2l, lineup) && (dist.Some? ==> dist.value in lineup)
    requires var r := ResolveName(valid, pl, lineup, otherLineup, team, otherTeam, season, s2l, l2s, dist);
             r.Ok? && Records(r.value)
    ensures var r := ResolveName(valid, pl, lineup, otherLineup, team, otherTeam, season, s2l, l2s, dist);
            var v := Recorded(valid, (pl, team, season), r.value);
            Some(pl) !in FilterOutCorrect(v, {Some(pl)}, lineup, team, season)
  {
    if UniqueByWords(pl, s2l, l2s) {
      assert s2l[pl][0] in s2l[pl];
    }
  }

  /** valid_player_names, written by resolve_match. */
  class NameTable {
    var valid: map<NameKey, string>

    constructor (valid0: map<NameKey, string>)
      ensures valid == valid0
    {
      valid := valid0;
    }

    /** resolve_match: True when a rule pairs the name (or reports it as belonging to the
        other team), False when it is left to the user. */
    method ResolveMatch(pl: string, lineup: set<string>, otherLineup: set<string>,
                        team: string, otherTeam: string, season: int,
                        s2l: map<string, seq<string>>, l2s: map<string, seq<string>>, dist: Option<string>)
      returns (r: Result<bool>)
      modifies this
      ensures var p := ResolveName(old(valid), pl, lineup, otherLineup, team, otherTeam, season, s2l, l2s, dist);
              && (p.Err? ==> r == Err(p.error) && valid == old(valid))
              && (p.Ok? ==> r == Ok(!p.value.Unpaired?) && valid == Recorded(old(valid), (pl, team, season), p.value))
    {
      if pl in s2l && |s2l[pl]| == 1 {
        var potential := s2l[pl][0];
        if potential in l2s && |l2s[potential]| == 1 {
          valid := valid[(pl, team, season) := potential];
          return Ok(true);
        }
      }
      if |lineup| < 2 {
        return Err(IndexError);
      }
      if dist.Some? {
        valid := valid[(pl, team, season) := dist.value];
        return Ok(true);
      }
      if (pl, team, season - 1) in valid && valid[(pl, team, season - 1)] in lineup {
        valid := valid[(pl, team, season) := valid[(pl, team, season - 1)]];
        return Ok(true);
      }
      if Get(valid, (pl, otherTeam, season), pl) in otherLineup {
        return Ok(true);
      }
      return Ok(false);
    }
  }
}
