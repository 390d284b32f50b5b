/** The rating update of the padel ELO engine: the rating and games-played
    dictionaries, created from the list of players and then updated in
    place, one match record at a time and in the order given, with each
    player's change damped by the games that player had played before. */
module PadelUpdate {
  import opened Numeric
  import opened PadelElo
  import opened PadelExport

  datatype Option<T> = None | Some(value: T)

  /** The rating every listed player starts with. */
  const InitialRating: int := 1800

  /** One row of the match history: player1a and player1b against player2a
      and player2b, with the two teams' scores. */
  datatype MatchRecord = MatchRecord(player1a: Name, player1b: Name, player2a: Name, player2b: Name,
                                     score1: int, score2: int)

  /** The rating and games dictionaries, as values. */
  datatype Tables = Tables(ratings: map<Name, int>, games: map<Name, nat>)

  /** What one record does: the new tables, or the name a lookup fails on
      (a KeyError in the source). */
  datatype Step = Applied(next: Tables) | Unknown(name: Name)

  /** What a whole history does: every record applied, or the tables as they
      stood when the record at index named an unknown player. */
  datatype History = Completed(tables: Tables) | Stopped(tables: Tables, index: nat, name: Name)

  /** The record index and the name of the first unknown player met. */
  datatype UnknownPlayer = UnknownPlayer(index: nat, name: Name)

  /** Both dictionaries have the same keys, as read_elo_ratings builds them. */
  predicate WellFormed(t: Tables)
  {
    t.ratings.Keys == t.games.Keys
  }

  predicate Distinct(s: seq<Name>)
  {
    forall i, j :: 0 <= i < j < |s| ==> s[i] != s[j]
  }

  /** The four names of a record, in the order update_ratings looks them up. */
  function Players(rec: MatchRecord): seq<Name>
  {
    [rec.player1a, rec.player1b, rec.player2a, rec.player2b]
  }

  predicate Known(t: Tables, rec: MatchRecord)
  {
    rec.player1a in t.ratings && rec.player1b in t.ratings &&
    rec.player2a in t.ratings && rec.player2b in t.ratings
  }

  /** The same match with the teams and their scores exchanged. */
  function Swapped(rec: MatchRecord): MatchRecord
  {
    MatchRecord(rec.player2a, rec.player2b, rec.player1a, rec.player1b, rec.score2, rec.score1)
  }

  /** How often p occurs in names. */
  function Count(p: Name, names: seq<Name>): nat
  {
    if names == [] then 0
    else (if names[0] == p then 1 else 0) + Count(p, names[1..])
  }

  // ---------------------------------------------------------------------
  // Initialisation
  // ---------------------------------------------------------------------

  /** The position of p's first occurrence in names. */
  function FirstIndex(p: Name, names: seq<Name>): (i: nat)
    requires p in names
    ensures i < |names| && names[i] == p
    ensures forall j :: 0 <= j < i ==> names[j] != p
    decreases |names|
  {
    var prefix := names[..|names| - 1];
    if p in prefix then FirstIndex(p, prefix) else |names| - 1
  }

  /** The keys of a dictionary built from players, in insertion order: each
      name at its first occurrence. */
  function Dedup(players: seq<Name>): (r: seq<Name>)
    ensures Distinct(r)
    ensures forall p :: p in r <==> p in players
    ensures forall i, j :: 0 <= i < j < |r| ==> FirstIndex(r[i], players) < FirstIndex(r[j], players)
    decreases |players|
  {
    if players == [] then []
    else
      var prefix := players[..|players| - 1];
      var last := players[|players| - 1];
      assert players == prefix + [last];
      var d := Dedup(prefix);
      assert forall p :: p in prefix ==> FirstIndex(p, players) == FirstIndex(p, prefix);
      if last in d then d else d + [last]
  }

  /** The two dictionaries of read_elo_ratings: every listed player, rated
      InitialRating with no games played, and nobody else. */
  function InitialTables(players: seq<Name>): (t: Tables)
    ensures WellFormed(t)
    ensures forall p :: p in t.ratings <==> p in players
    ensures forall p :: p in t.ratings ==> t.ratings[p] == InitialRating && t.games[p] == 0
  {
    Tables(map p | p in players :: InitialRating, map p | p in players :: 0)
  }

  // ---------------------------------------------------------------------
  // One record
  // ---------------------------------------------------------------------

  /** Team 1's raw rating change for a record: elo_variation of the two team
      ratings, both computed from the ratings as they stood before the
      record, with target 8 and beta 7. Team 2's change is its negation. */
  function TeamVar(t: Tables, rec: MatchRecord, winChance: WinChance): (r: int)
    requires Known(t, rec)
    ensures r % DefaultBeta == 0
    ensures var e := ExpectedScore(ComputeTeamElo(t.ratings[rec.player1a], t.ratings[rec.player1b], DefaultAlphaNum, DefaultAlphaDen),
                                   ComputeTeamElo(t.ratings[rec.player2a], t.ratings[rec.player2b], DefaultAlphaNum, DefaultAlphaDen),
                                   DefaultTarget, winChance);
      && (r > 0 <==> rec.score1 - rec.score2 > e.0 - e.1)
      && (r < 0 <==> rec.score1 - rec.score2 < e.0 - e.1)
  {
    var elo1 := ComputeTeamElo(t.ratings[rec.player1a], t.ratings[rec.player1b], DefaultAlphaNum, DefaultAlphaDen);
    var elo2 := ComputeTeamElo(t.ratings[rec.player2a], t.ratings[rec.player2b], DefaultAlphaNum, DefaultAlphaDen);
    var e := ExpectedScore(elo1, elo2, DefaultTarget, winChance);
    MultipleMod(CompareScores(rec.score1, rec.score2, e), DefaultBeta);
    EloVariation(elo1, elo2, (rec.score1, rec.score2), DefaultTarget, DefaultBeta, winChance)
  }

  /** The raw change each of the four players receives, in update order:
      team1Var for team 1's players, its negation for team 2's. */
  function Changes(rec: MatchRecord, team1Var: int): (cs: seq<(Name, int)>)
    ensures NamesOf(cs) == Players(rec)
  {
    var team2Var := -team1Var;
    [(rec.player1a, team1Var), (rec.player1b, team1Var), (rec.player2a, team2Var), (rec.player2b, team2Var)]
  }

  function NamesOf(cs: seq<(Name, int)>): (names: seq<Name>)
    ensures |names| == |cs|
    ensures forall i :: 0 <= i < |cs| ==> names[i] == cs[i].0
  {
    seq(|cs|, i requires 0 <= i < |cs| => cs[i].0)
  }

  /** One player's update: the damped change, using the games count before
      the increment, then the increment. */
  function ApplyPlayer(t: Tables, p: Name, teamVar: int): (r: Tables)
    requires p in t.ratings && p in t.games
    ensures r.ratings.Keys == t.ratings.Keys && r.games.Keys == t.games.Keys
  {
    Tables(t.ratings[p := t.ratings[p] + Damp(teamVar, t.games[p])], t.games[p := t.games[p] + 1])
  }

  /** The player updates of cs, one after the other. */
  function ApplyAll(t: Tables, cs: seq<(Name, int)>): (r: Tables)
    requires WellFormed(t)
    requires forall i :: 0 <= i < |cs| ==> cs[i].0 in t.ratings
    ensures WellFormed(r) && r.ratings.Keys == t.ratings.Keys
    decreases |cs|
  {
    if cs == [] then t
    else ApplyAll(ApplyPlayer(t, cs[0].0, cs[0].1), cs[1..])
  }

  /** One iteration of the loop over the history: the unknown name the
      lookups of the team ratings fail on, or all four player updates. */
  function ApplyMatch(t: Tables, rec: MatchRecord, winChance: WinChance): (s: Step)
    requires WellFormed(t)
    ensures s.Unknown? <==> !Known(t, rec)
    ensures s.Unknown? ==> s.name in Players(rec) && s.name !in t.ratings
    ensures s.Unknown? ==>
      exists k :: 0 <= k < 4 && s.name == Players(rec)[k] && (forall j :: 0 <= j < k ==> Players(rec)[j] in t.ratings)
    ensures s.Applied? ==> WellFormed(s.next) && s.next.ratings.Keys == t.ratings.Keys
  {
    var players := Players(rec);
    if rec.player1a !in t.ratings then
      assert players[0] == rec.player1a;
      Unknown(rec.player1a)
    else if rec.player1b !in t.ratings then
      assert players[0] in t.ratings && players[1] == rec.player1b;
      Unknown(rec.player1b)
    else if rec.player2a !in t.ratings then
      assert players[0] in t.ratings && players[1] in t.ratings && players[2] == rec.player2a;
      Unknown(rec.player2a)
    else if rec.player2b !in t.ratings then
      assert players[0] in t.ratings && players[1] in t.ratings && players[2] in t.ratings;
      assert players[3] == rec.player2b;
      Unknown(rec.player2b)
    else Applied(ApplyAll(t, Changes(rec, TeamVar(t, rec, winChance))))
  }

  /** update_ratings over a whole history, in order, stopping at the first
      record that names an unknown player. */
  function Replay(t: Tables, recs: seq<MatchRecord>, winChance: WinChance): (h: History)
    requires WellFormed(t)
    ensures WellFormed(h.tables) && h.tables.ratings.Keys == t.ratings.Keys
    ensures h.Stopped? ==> h.index < |recs| && h.name in Players(recs[h.index]) && h.name !in t.ratings
    decreases |recs|
  {
    if recs == [] then Completed(t)
    else
      var prefix := recs[..|recs| - 1];
      var last := recs[|recs| - 1];
      match Replay(t, prefix, winChance)
      case Stopped(s, k, n) =>
        assert prefix[k] == recs[k];
        Stopped(s, k, n)
      case Completed(s) =>
        match ApplyMatch(s, last, winChance)
        case Unknown(n) => Stopped(s, |recs| - 1, n)
        case Applied(next) => Completed(next)
  }

  /** How often p plays in a history. */
  function Appearances(p: Name, recs: seq<MatchRecord>): nat
  {
    if recs == [] then 0
    else Appearances(p, recs[..|recs| - 1]) + Count(p, Players(recs[|recs| - 1]))
  }

  // ---------------------------------------------------------------------
  // Properties of the update
  // ---------------------------------------------------------------------

  /** A record whose four players are distinct and known changes exactly
      their ratings and game counts: each gains one game, each team 1 player
      the damped team change, each team 2 player the damped negated change,
      every damping by that player's count before the record; every other
      player and both key sets stay as they were. */
  lemma ApplyMatchEffect(t: Tables, rec: MatchRecord, winChance: WinChance)
    requires WellFormed(t) && Known(t, rec) && Distinct(Players(rec))
    ensures ApplyMatch(t, rec, winChance).Applied?
    ensures var s := ApplyMatch(t, rec, winChance).next;
      s.ratings.Keys == t.ratings.Keys && s.games.Keys == t.games.Keys
    ensures var s := ApplyMatch(t, rec, winChance).next; var v := TeamVar(t, rec, winChance);
      s.ratings[rec.player1a] == t.ratings[rec.player1a] + Damp(v, t.games[rec.player1a])
    ensures var s := ApplyMatch(t, rec, winChance).next; var v := TeamVar(t, rec, winChance);
      s.ratings[rec.player1b] == t.ratings[rec.player1b] + Damp(v, t.games[rec.player1b])
    ensures var s := ApplyMatch(t, rec, winChance).next; var v := TeamVar(t, rec, winChance);
      s.ratings[rec.player2a] == t.ratings[rec.player2a] + Damp(-v, t.games[rec.player2a])
    ensures var s := ApplyMatch(t, rec, winChance).next; var v := TeamVar(t, rec, winChance);
      s.ratings[rec.player2b] == t.ratings[rec.player2b] + Damp(-v, t.games[rec.player2b])
    ensures var s := ApplyMatch(t, rec, winChance).next;
      && s.games[rec.player1a] == t.games[rec.player1a] + 1
      && s.games[rec.player1b] == t.games[rec.player1b] + 1
      && s.games[rec.player2a] == t.games[rec.player2a] + 1
      && s.games[rec.player2b] == t.games[rec.player2b] + 1
    ensures var s := ApplyMatch(t, rec, winChance).next;
      forall p :: p in t.ratings && p !in Players(rec) ==> s.ratings[p] == t.ratings[p] && s.games[p] == t.games[p]
  {
    ChangesEffect(t, rec, TeamVar(t, rec, winChance), ApplyMatch(t, rec, winChance).next);
  }

  /** The same for the four updates of a record with team 1 change v. */
  lemma ChangesEffect(t: Tables, rec: MatchRecord, v: int, s: Tables)
    requires WellFormed(t) && Known(t, rec) && Distinct(Players(rec))
    requires s == ApplyAll(t, Changes(rec, v))
    ensures s.ratings.Keys == t.ratings.Keys && s.games.Keys == t.games.Keys
    ensures s.ratings[rec.player1a] == t.ratings[rec.player1a] + Damp(v, t.games[rec.player1a])
    ensures s.ratings[rec.player1b] == t.ratings[rec.player1b] + Damp(v, t.games[rec.player1b])
    ensures s.ratings[rec.player2a] == t.ratings[rec.player2a] + Damp(-v, t.games[rec.player2a])
    ensures s.ratings[rec.player2b] == t.ratings[rec.player2b] + Damp(-v, t.games[rec.player2b])
    ensures
      && s.games[rec.player1a] == t.games[rec.player1a] + 1
      && s.games[rec.player1b] == t.games[rec.player1b] + 1
      && s.games[rec.player2a] == t.games[rec.player2a] + 1
      && s.games[rec.player2b] == t.games[rec.player2b] + 1
    ensures forall p :: p in t.ratings && p !in Players(rec) ==> s.ratings[p] == t.ratings[p] && s.games[p] == t.games[p]
  {
    ChangesOnce(t, rec, v, 0, rec.player1a, v);
    ChangesOnce(t, rec, v, 1, rec.player1b, v);
    ChangesOnce(t, rec, v, 2, rec.player2a, -v);
    ChangesOnce(t, rec, v, 3, rec.player2b, -v);
    ChangesUntouched(t, rec, v);
  }

  /** The changes of a record name its four known players in order. */
  lemma ChangesKnown(t: Tables, rec: MatchRecord, v: int)
    requires Known(t, rec)
    ensures forall i :: 0 <= i < |Changes(rec, v)| ==>
      Changes(rec, v)[i].0 == Players(rec)[i] && Changes(rec, v)[i].0 in t.ratings
  {
    var cs := Changes(rec, v);
    forall i | 0 <= i < |cs| ensures cs[i].0 == Players(rec)[i] && cs[i].0 in t.ratings {
      if i == 0 {} else if i == 1 {} else if i == 2 {} else {}
    }
  }

  lemma ChangesOnce(t: Tables, rec: MatchRecord, v: int, k: nat, p: Name, d: int)
    requires WellFormed(t) && Known(t, rec) && Distinct(Players(rec)) && k < 4
    requires Players(rec)[k] == p && Changes(rec, v)[k].1 == d
    ensures ApplyAll(t, Changes(rec, v)).ratings[p] == t.ratings[p] + Damp(d, t.games[p])
    ensures ApplyAll(t, Changes(rec, v)).games[p] == t.games[p] + 1
  {
    var cs := Changes(rec, v);
    ChangesKnown(t, rec, v);
    ApplyAllOnce(t, cs, k, p, d);
  }

  lemma ChangesUntouched(t: Tables, rec: MatchRecord, v: int)
    requires WellFormed(t) && Known(t, rec)
    ensures forall p :: p in t.ratings && p !in Players(rec) ==>
      ApplyAll(t, Changes(rec, v)).ratings[p] == t.ratings[p] &&
      ApplyAll(t, Changes(rec, v)).games[p] == t.games[p]
  {
    var cs := Changes(rec, v);
    ChangesKnown(t, rec, v);
    forall p | p in t.ratings && p !in Players(rec)
      ensures ApplyAll(t, cs).ratings[p] == t.ratings[p] && ApplyAll(t, cs).games[p] == t.games[p]
    {
      ApplyAllUntouched(t, cs, p);
    }
  }

  /** One more update of cs done: the rest of cs still leads to the same
      tables. */
  lemma ApplyAllNext(t: Tables, after: Tables, cs: seq<(Name, int)>, i: nat, target: Tables)
    requires WellFormed(t) && i < |cs|
    requires forall k :: 0 <= k < |cs| ==> cs[k].0 in t.ratings
    requires ApplyAll(t, cs[i..]) == target
    requires after == ApplyPlayer(t, cs[i].0, cs[i].1)
    ensures WellFormed(after) && after.ratings.Keys == t.ratings.Keys
    ensures ApplyAll(after, cs[i + 1..]) == target
  {
    assert cs[i..][1..] == cs[i + 1..];
  }

  /** Nothing left to apply. */
  lemma ApplyAllDone(t: Tables, cs: seq<(Name, int)>, target: Tables)
    requires WellFormed(t) && ApplyAll(t, cs[|cs|..]) == target
    ensures t == target
  {
    assert cs[|cs|..] == [];
  }

  /** A player that does not occur in cs keeps its rating and games. */
  lemma {:induction false} ApplyAllUntouched(t: Tables, cs: seq<(Name, int)>, p: Name)
    requires WellFormed(t)
    requires forall i :: 0 <= i < |cs| ==> cs[i].0 in t.ratings
    requires p in t.ratings && forall i :: 0 <= i < |cs| ==> cs[i].0 != p
    ensures ApplyAll(t, cs).ratings[p] == t.ratings[p] && ApplyAll(t, cs).games[p] == t.games[p]
    decreases |cs|
  {
    if cs != [] {
      ApplyAllUntouched(ApplyPlayer(t, cs[0].0, cs[0].1), cs[1..], p);
    }
  }

  /** A player that occurs in cs only at index k receives the change cs[k]
      carries, damped by its games before, and one game. */
  lemma {:induction false} ApplyAllOnce(t: Tables, cs: seq<(Name, int)>, k: nat, p: Name, d: int)
    requires WellFormed(t)
    requires forall i :: 0 <= i < |cs| ==> cs[i].0 in t.ratings
    requires k < |cs| && cs[k] == (p, d)
    requires forall i :: 0 <= i < |cs| && i != k ==> cs[i].0 != p
    ensures ApplyAll(t, cs).ratings[p] == t.ratings[p] + Damp(d, t.games[p])
    ensures ApplyAll(t, cs).games[p] == t.games[p] + 1
    decreases |cs|
  {
    var t1 := ApplyPlayer(t, cs[0].0, cs[0].1);
    if k == 0 {
      ApplyAllUntouched(t1, cs[1..], p);
    } else {
      ApplyAllOnce(t1, cs[1..], k - 1, p, d);
    }
  }

  /** Every occurrence of a player in cs adds one game. */
  lemma {:induction false} ApplyAllGames(t: Tables, cs: seq<(Name, int)>, r: Tables)
    requires WellFormed(t)
    requires forall i :: 0 <= i < |cs| ==> cs[i].0 in t.ratings
    requires r == ApplyAll(t, cs)
    ensures forall p :: p in t.games ==> r.games[p] == t.games[p] + Count(p, NamesOf(cs))
    decreases |cs|
  {
    if cs != [] {
      var t1 := ApplyPlayer(t, cs[0].0, cs[0].1);
      ApplyAllGames(t1, cs[1..], r);
      assert NamesOf(cs)[1..] == NamesOf(cs[1..]);
    }
  }

  /** When the four players are in the same damping tier, both players of a
      team move by the same amount and the two teams move by opposite
      amounts, so the four ratings keep their sum. */
  lemma MatchZeroSum(t: Tables, rec: MatchRecord, winChance: WinChance)
    requires WellFormed(t) && Known(t, rec) && Distinct(Players(rec))
    requires Tier(t.games[rec.player1a]) == Tier(t.games[rec.player1b])
          == Tier(t.games[rec.player2a]) == Tier(t.games[rec.player2b])
    ensures ApplyMatch(t, rec, winChance).Applied?
    ensures var s := ApplyMatch(t, rec, winChance).next;
            var change1 := s.ratings[rec.player1a] - t.ratings[rec.player1a];
      && s.ratings[rec.player1b] - t.ratings[rec.player1b] == change1
      && s.ratings[rec.player2a] - t.ratings[rec.player2a] == -change1
      && s.ratings[rec.player2b] - t.ratings[rec.player2b] == -change1
  {
    ApplyMatchEffect(t, rec, winChance);
    var v := TeamVar(t, rec, winChance);
    var ga, gb := t.games[rec.player1a], t.games[rec.player1b];
    var gc, gd := t.games[rec.player2a], t.games[rec.player2b];
    DampOdd(-v, ga, gb);
    DampOdd(v, ga, gc);
    DampOdd(v, ga, gd);
  }

  /** Exchanging the teams and their scores negates the raw team change,
      when the win chances are complementary. */
  lemma TeamVarMirror(t: Tables, rec: MatchRecord, winChance: WinChance)
    requires Known(t, rec) && Complementary(winChance)
    ensures TeamVar(t, Swapped(rec), winChance) == -TeamVar(t, rec, winChance)
  {
    var elo1 := ComputeTeamElo(t.ratings[rec.player1a], t.ratings[rec.player1b], DefaultAlphaNum, DefaultAlphaDen);
    var elo2 := ComputeTeamElo(t.ratings[rec.player2a], t.ratings[rec.player2b], DefaultAlphaNum, DefaultAlphaDen);
    EloVariationMirror(elo1, elo2, rec.score1, rec.score2, DefaultTarget, DefaultBeta, winChance);
  }

  /** A completed history adds to every player's games count exactly the
      number of times the player occurs in it. */
  lemma {:induction false} ReplayGames(t: Tables, recs: seq<MatchRecord>, winChance: WinChance)
    requires WellFormed(t) && Replay(t, recs, winChance).Completed?
    ensures forall p :: p in t.games ==>
      Replay(t, recs, winChance).tables.games[p] == t.games[p] + Appearances(p, recs)
    decreases |recs|
  {
    if recs != [] {
      var prefix := recs[..|recs| - 1];
      var last := recs[|recs| - 1];
      ReplayLast(t, recs, winChance);
      ReplayGames(t, prefix, winChance);
      var s := Replay(t, prefix, winChance).tables;
      var next := Replay(t, recs, winChance).tables;
      ApplyMatchGames(s, last, winChance, next);
      forall p | p in t.games
        ensures next.games[p] == t.games[p] + Appearances(p, recs)
      {
        assert p in s.games;
        assert Appearances(p, recs) == Appearances(p, prefix) + Count(p, Players(last));
      }
    }
  }

  /** A record that is applied adds one game per occurrence of a player. */
  lemma ApplyMatchGames(t: Tables, rec: MatchRecord, winChance: WinChance, next: Tables)
    requires WellFormed(t) && ApplyMatch(t, rec, winChance) == Applied(next)
    ensures forall p :: p in t.games ==> next.games[p] == t.games[p] + Count(p, Players(rec))
  {
    ApplyMatchApplied(t, rec, winChance, next);
    ApplyAllGames(t, Changes(rec, TeamVar(t, rec, winChance)), next);
  }

  /** The last record of a completed history is applied to the tables the
      records before it leave. */
  lemma ReplayLast(t: Tables, recs: seq<MatchRecord>, winChance: WinChance)
    requires WellFormed(t) && recs != [] && Replay(t, recs, winChance).Completed?
    ensures Replay(t, recs[..|recs| - 1], winChance).Completed?
    ensures ApplyMatch(Replay(t, recs[..|recs| - 1], winChance).tables, recs[|recs| - 1], winChance)
         == Applied(Replay(t, recs, winChance).tables)
  {
  }

  /** A record that is applied has known players and makes their four
      updates. */
  lemma ApplyMatchApplied(t: Tables, rec: MatchRecord, winChance: WinChance, next: Tables)
    requires WellFormed(t) && ApplyMatch(t, rec, winChance) == Applied(next)
    ensures Known(t, rec) && next == ApplyAll(t, Changes(rec, TeamVar(t, rec, winChance)))
  {
  }

  /** A history that stops at record k leaves the tables as the first k
      records make them: the failing record changes nothing. */
  lemma {:induction false} ReplayStopped(t: Tables, recs: seq<MatchRecord>, winChance: WinChance)
    requires WellFormed(t) && Replay(t, recs, winChance).Stopped?
    ensures var h := Replay(t, recs, winChance);
      && Replay(t, recs[..h.index], winChance) == Completed(h.tables)
      && ApplyMatch(h.tables, recs[h.index], winChance) == Unknown(h.name)
    decreases |recs|
  {
    var prefix := recs[..|recs| - 1];
    if Replay(t, prefix, winChance).Stopped? {
      ReplayStopped(t, prefix, winChance);
      ReplayStoppedEarlier(t, recs, winChance);
      PrefixOfPrefix(recs, |recs| - 1, Replay(t, prefix, winChance).index);
    } else {
      ReplayStoppedLast(t, recs, winChance);
    }
  }

  lemma ReplayStoppedEarlier(t: Tables, recs: seq<MatchRecord>, winChance: WinChance)
    requires WellFormed(t) && recs != [] && Replay(t, recs[..|recs| - 1], winChance).Stopped?
    ensures Replay(t, recs, winChance) == Replay(t, recs[..|recs| - 1], winChance)
  {
  }

  lemma ReplayStoppedLast(t: Tables, recs: seq<MatchRecord>, winChance: WinChance)
    requires WellFormed(t) && recs != [] && Replay(t, recs[..|recs| - 1], winChance).Completed?
    requires Replay(t, recs, winChance).Stopped?
    ensures Replay(t, recs, winChance).index == |recs| - 1
    ensures Replay(t, recs[..|recs| - 1], winChance) == Completed(Replay(t, recs, winChance).tables)
    ensures ApplyMatch(Replay(t, recs, winChance).tables, recs[|recs| - 1], winChance)
         == Unknown(Replay(t, recs, winChance).name)
  {
  }

  /** Four new players at the same rating, a and b beat c and d 8-3 with
      even chances: the prediction is 8-8, team 1 gains 5 * 7 = 35 raw,
      amplified to 85 for players without games, and every count becomes 1. */
  lemma FirstMatchExample(t: Tables, rec: MatchRecord, winChance: WinChance)
    requires WellFormed(t) && Known(t, rec) && Distinct(Players(rec)) && winChance(0) == 50
    requires rec.score1 == 8 && rec.score2 == 3
    requires t.ratings[rec.player1b] == t.ratings[rec.player1a]
    requires t.ratings[rec.player2a] == t.ratings[rec.player1a]
    requires t.ratings[rec.player2b] == t.ratings[rec.player1a]
    requires t.games[rec.player1a] == 0 && t.games[rec.player1b] == 0
    requires t.games[rec.player2a] == 0 && t.games[rec.player2b] == 0
    ensures var s := ApplyMatch(t, rec, winChance);
      && s.Applied?
      && s.next.ratings[rec.player1a] == t.ratings[rec.player1a] + 85
      && s.next.ratings[rec.player1b] == t.ratings[rec.player1a] + 85
      && s.next.ratings[rec.player2a] == t.ratings[rec.player1a] - 85
      && s.next.ratings[rec.player2b] == t.ratings[rec.player1a] - 85
      && s.next.games[rec.player1a] == 1 && s.next.games[rec.player1b] == 1
      && s.next.games[rec.player2a] == 1 && s.next.games[rec.player2b] == 1
  {
    assert TeamVar(t, rec, winChance) == 35 by {
      EvenMatchVar(t, rec, winChance);
    }
    ApplyMatchEffect(t, rec, winChance);
    DampExamples();
  }

  /** Four equally rated players and even chances at no lead: the prediction
      is a draw at the target, so team 1's raw change is beta times the
      actual margin. */
  lemma EvenMatchVar(t: Tables, rec: MatchRecord, winChance: WinChance)
    requires Known(t, rec) && winChance(0) == 50
    requires t.ratings[rec.player1b] == t.ratings[rec.player1a]
    requires t.ratings[rec.player2a] == t.ratings[rec.player1a]
    requires t.ratings[rec.player2b] == t.ratings[rec.player1a]
    ensures TeamVar(t, rec, winChance) == DefaultBeta * (rec.score1 - rec.score2)
  {
    var r := t.ratings[rec.player1a];
    var elo := ComputeTeamElo(r, r, DefaultAlphaNum, DefaultAlphaDen);
    assert elo == r;
    assert ClampedLead(r, r) == 0;
    var e := ExpectedScore(r, r, DefaultTarget, winChance);
    assert e == (DefaultTarget, DefaultTarget);
  }

  // ---------------------------------------------------------------------
  // The dictionaries, updated in place
  // ---------------------------------------------------------------------

  class RatingTable {
    /** The players, in the dictionaries' key order. */
    var roster: seq<Name>
    var ratings: map<Name, int>
    var games: map<Name, nat>

    ghost predicate Valid()
      reads this
    {
      && Distinct(roster)
      && (forall p :: p in roster <==> p in ratings)
      && ratings.Keys == games.Keys
    }

    function Current(): (t: Tables)
      reads this
    {
      Tables(ratings, games)
    }

    /** read_elo_ratings: one entry per listed player, in first-listed order. */
    constructor (players: seq<Name>)
      ensures Valid()
      ensures roster == Dedup(players) && Current() == InitialTables(players)
    {
      roster := Dedup(players);
      ratings := map p | p in players :: InitialRating;
      games := map p | p in players :: 0;
    }

    /** The body of the loop of update_ratings for one record: look up the
        four ratings (failing on the first unknown name, before anything is
        written), compute team 1's change and its negation for team 2, then
        update team 1's players and team 2's players in turn. */
    method ApplyRecord(rec: MatchRecord, winChance: WinChance) returns (unknown: Option<Name>)
      requires Valid()
      modifies this
      ensures Valid() && roster == old(roster)
      ensures match ApplyMatch(old(Current()), rec, winChance)
        case Unknown(n) => unknown == Some(n) && Current() == old(Current())
        case Applied(s) => unknown == None && Current() == s
    {
      if rec.player1a !in ratings {
        return Some(rec.player1a);
      }
      if rec.player1b !in ratings {
        return Some(rec.player1b);
      }
      if rec.player2a !in ratings {
        return Some(rec.player2a);
      }
      if rec.player2b !in ratings {
        return Some(rec.player2b);
      }
      var team1Var := TeamVar(Current(), rec, winChance);
      var team2Var := -team1Var;
      var changes := [(rec.player1a, team1Var), (rec.player1b, team1Var),
                      (rec.player2a, team2Var), (rec.player2b, team2Var)];
      assert changes == Changes(rec, team1Var);
      UpdatePlayers(changes);
      unknown := None;
    }

    /** The two nested loops of update_ratings over the teams and their
        players, flattened into one loop over the (player, team change)
        pairs: each player's rating moves by the damped change, using the
        games count before the increment, then the count goes up by one. */
    method UpdatePlayers(changes: seq<(Name, int)>)
      requires Valid()
      requires forall i :: 0 <= i < |changes| ==> changes[i].0 in ratings
      modifies this
      ensures Valid() && roster == old(roster)
      ensures Current() == ApplyAll(old(Current()), changes)
    {
      ghost var target := ApplyAll(Current(), changes);
      assert changes[0..] == changes;
      for i := 0 to |changes|
        invariant Valid() && roster == old(roster) && ratings.Keys == old(ratings).Keys
        invariant ApplyAll(Current(), changes[i..]) == target
      {
        var player, teamVar := changes[i].0, changes[i].1;
        ghost var before := Current();
        UpdatePlayer(player, teamVar);
        ApplyAllNext(before, Current(), changes, i, target);
      }
      ApplyAllDone(Current(), changes, target);
    }

    /** The body of the inner loop: the damped change, by the games count
        before the increment, then the increment. */
    method UpdatePlayer(player: Name, teamVar: int)
      requires Valid() && player in ratings
      modifies this
      ensures Valid() && roster == old(roster) && ratings.Keys == old(ratings).Keys
      ensures Current() == ApplyPlayer(old(Current()), player, teamVar)
    {
      ghost var before := Current();
      SameKeys(ratings, player, ratings[player] + Damp(teamVar, games[player]));
      SameKeys(games, player, games[player] + 1);
      ratings := ratings[player := ratings[player] + Damp(teamVar, games[player])];
      games := games[player := games[player] + 1];
      ApplyPlayerIs(before, player, teamVar, ratings, games);
    }

    /** update_ratings: the records in order; the first record that names an
        unknown player stops the loop, with every earlier record applied. */
    method UpdateRatings(data: seq<MatchRecord>, winChance: WinChance) returns (failure: Option<UnknownPlayer>)
      requires Valid()
      modifies this
      ensures Valid() && roster == old(roster)
      ensures match Replay(old(Current()), data, winChance)
        case Completed(s) => failure == None && Current() == s
        case Stopped(s, k, n) => failure == Some(UnknownPlayer(k, n)) && Current() == s
    {
      ghost var start := Current();
      var i := 0;
      while i < |data|
        invariant 0 <= i <= |data|
        invariant Valid() && roster == old(roster)
        invariant Replay(start, data[..i], winChance) == Completed(Current())
      {
        ghost var before := Current();
        var unknown := ApplyRecord(data[i], winChance);
        if unknown.Some? {
          failure := Some(UnknownPlayer(i, unknown.value));
          ReplayStopsThere(start, data, i, winChance);
          return;
        }
        ReplayNext(start, data, i, winChance, before, Current());
        i := i + 1;
      }
      PrefixAll(data);
      failure := None;
    }

    /** create_elo_rating_file on the current dictionaries: exactly the
        players with at least MinGames games, each once, with their rating
        and games, best rating first, numbered from 1. */
    function EloRatingTable(): (rows: seq<Row>)
      reads this
      requires Valid()
      ensures forall i :: 0 <= i < |rows| ==> rows[i].position == i + 1
      ensures forall i, j :: 0 <= i < j < |rows| ==> rows[i].rating >= rows[j].rating
      ensures forall i :: 0 <= i < |rows| ==>
        && rows[i].name in ratings
        && rows[i].rating == ratings[rows[i].name]
        && rows[i].games == games[rows[i].name]
        && rows[i].games >= MinGames
      ensures NamesOfRows(rows) == EligibleNames(ratings, games)
      ensures forall i, j :: 0 <= i < j < |rows| ==> rows[i].name != rows[j].name
    {
      var rows := CreateEloRatingTable(EntriesOf(roster, ratings, games));
      TableOfEntries(roster, ratings, games, rows);
      rows
    }
  }

  lemma ApplyPlayerIs(t: Tables, p: Name, teamVar: int, ratings: map<Name, int>, games: map<Name, nat>)
    requires p in t.ratings && p in t.games
    requires ratings == t.ratings[p := t.ratings[p] + Damp(teamVar, t.games[p])]
    requires games == t.games[p := t.games[p] + 1]
    ensures Tables(ratings, games) == ApplyPlayer(t, p, teamVar)
  {
  }

  lemma PrefixNext<T>(s: seq<T>, i: nat)
    requires i < |s|
    ensures s[..i + 1][..i] == s[..i] && s[..i + 1][i] == s[i] && |s[..i + 1]| == i + 1
  {
  }

  lemma PrefixOfPrefix<T>(s: seq<T>, n: nat, k: nat)
    requires k < n <= |s|
    ensures s[..n][..k] == s[..k] && s[..n][k] == s[k]
  {
  }

  lemma PrefixAll<T>(s: seq<T>)
    ensures s[..|s|] == s
  {
  }

  /** Updating a key that is present keeps the key set. */
  lemma SameKeys<V>(m: map<Name, V>, k: Name, v: V)
    requires k in m
    ensures m[k := v].Keys == m.Keys
  {
  }

  /** The loop's step on a record that it applies agrees with Replay. */
  lemma ReplayNext(t: Tables, data: seq<MatchRecord>, i: nat, winChance: WinChance, s: Tables, next: Tables)
    requires WellFormed(t) && i < |data|
    requires Replay(t, data[..i], winChance) == Completed(s)
    requires ApplyMatch(s, data[i], winChance) == Applied(next)
    ensures Replay(t, data[..i + 1], winChance) == Completed(next)
  {
    PrefixNext(data, i);
  }

  /** The loop's exit on an unknown player agrees with Replay. */
  lemma ReplayStopsThere(t: Tables, data: seq<MatchRecord>, i: nat, winChance: WinChance)
    requires WellFormed(t) && i < |data|
    requires Replay(t, data[..i], winChance).Completed?
    requires ApplyMatch(Replay(t, data[..i], winChance).tables, data[i], winChance).Unknown?
    ensures Replay(t, data, winChance) == Stopped(Replay(t, data[..i], winChance).tables, i,
                                               ApplyMatch(Replay(t, data[..i], winChance).tables, data[i], winChance).name)
    decreases |data| - i
  {
    ReplayStopsAt(t, data, i, winChance);
    if i + 1 < |data| {
      ReplayStopsAfter(t, data, i + 1, winChance);
    } else {
      PrefixAll(data);
    }
  }

  lemma ReplayStopsAt(t: Tables, data: seq<MatchRecord>, i: nat, winChance: WinChance)
    requires WellFormed(t) && i < |data|
    requires Replay(t, data[..i], winChance).Completed?
    requires ApplyMatch(Replay(t, data[..i], winChance).tables, data[i], winChance).Unknown?
    ensures Replay(t, data[..i + 1], winChance) == Stopped(Replay(t, data[..i], winChance).tables, i,
                                                       ApplyMatch(Replay(t, data[..i], winChance).tables, data[i], winChance).name)
  {
    PrefixNext(data, i);
  }

  /** Once stopped, a replay stays stopped at the same place. */
  lemma {:induction false} ReplayStopsAfter(t: Tables, data: seq<MatchRecord>, j: nat, winChance: WinChance)
    requires WellFormed(t) && j <= |data|
    requires Replay(t, data[..j], winChance).Stopped?
    ensures Replay(t, data, winChance) == Replay(t, data[..j], winChance)
    decreases |data| - j
  {
    if j < |data| {
      PrefixNext(data, j);
      ReplayStopsAfter(t, data, j + 1, winChance);
    } else {
      PrefixAll(data);
    }
  }

  /** The table built from the entries of the dictionaries names each
      eligible player exactly once. */
  lemma TableOfEntries(roster: seq<Name>, ratings: map<Name, int>, games: map<Name, nat>, rows: seq<Row>)
    requires Distinct(roster) && (forall p :: p in roster <==> p in ratings) && ratings.Keys == games.Keys
    requires rows == CreateEloRatingTable(EntriesOf(roster, ratings, games))
    ensures forall i :: 0 <= i < |rows| ==>
      && rows[i].name in ratings
      && rows[i].rating == ratings[rows[i].name]
      && rows[i].games == games[rows[i].name]
      && rows[i].games >= MinGames
    ensures NamesOfRows(rows) == EligibleNames(ratings, games)
    ensures forall i, j :: 0 <= i < j < |rows| ==> rows[i].name != rows[j].name
  {
    var es := EntriesOf(roster, ratings, games);
    RowsAreEntries(roster, ratings, games, es, rows);
    EligibleAreRows(roster, ratings, games, es, rows);
    EntriesDistinct(roster, ratings, games, es);
    RowsDistinct(ratings, games, es, rows);
  }

  lemma RowsAreEntries(roster: seq<Name>, ratings: map<Name, int>, games: map<Name, nat>,
                       es: seq<Entry>, rows: seq<Row>)
    requires forall i :: 0 <= i < |roster| ==> roster[i] in ratings && roster[i] in games
    requires es == EntriesOf(roster, ratings, games)
    requires forall e :: multiset(UnnumberedRows(rows))[e] == if e.games >= MinGames then multiset(es)[e] else 0
    ensures forall i :: 0 <= i < |rows| ==>
      && rows[i].name in ratings
      && rows[i].rating == ratings[rows[i].name]
      && rows[i].games == games[rows[i].name]
      && rows[i].games >= MinGames
  {
    var un := UnnumberedRows(rows);
    forall i | 0 <= i < |rows|
      ensures rows[i].name in ratings && rows[i].rating == ratings[rows[i].name]
      ensures rows[i].games == games[rows[i].name] && rows[i].games >= MinGames
    {
      assert un[i] in multiset(un);
      assert un[i] in multiset(es);
      var k :| 0 <= k < |es| && es[k] == un[i];
    }
  }

  lemma EligibleAreRows(roster: seq<Name>, ratings: map<Name, int>, games: map<Name, nat>,
                        es: seq<Entry>, rows: seq<Row>)
    requires (forall p :: p in roster <==> p in ratings) && ratings.Keys == games.Keys
    requires es == EntriesOf(roster, ratings, games)
    requires forall e :: multiset(UnnumberedRows(rows))[e] == if e.games >= MinGames then multiset(es)[e] else 0
    requires forall i :: 0 <= i < |rows| ==>
      rows[i].name in ratings && rows[i].name in games && rows[i].games == games[rows[i].name] && rows[i].games >= MinGames
    ensures NamesOfRows(rows) == EligibleNames(ratings, games)
  {
    forall p | p in EligibleNames(ratings, games)
      ensures p in NamesOfRows(rows)
    {
      EligibleInRows(roster, ratings, games, es, rows, p);
    }
    forall p | p in NamesOfRows(rows)
      ensures p in EligibleNames(ratings, games)
    {
      var i :| 0 <= i < |rows| && rows[i].name == p;
    }
  }

  lemma EligibleInRows(roster: seq<Name>, ratings: map<Name, int>, games: map<Name, nat>,
                       es: seq<Entry>, rows: seq<Row>, p: Name)
    requires (forall p :: p in roster <==> p in ratings) && ratings.Keys == games.Keys
    requires es == EntriesOf(roster, ratings, games)
    requires forall e :: multiset(UnnumberedRows(rows))[e] == if e.games >= MinGames then multiset(es)[e] else 0
    requires p in EligibleNames(ratings, games)
    ensures p in NamesOfRows(rows)
  {
    var un := UnnumberedRows(rows);
    var k :| 0 <= k < |roster| && roster[k] == p;
    assert es[k] in multiset(es);
    assert es[k] in multiset(un);
    var i :| 0 <= i < |un| && un[i] == es[k];
    assert rows[i].name == p;
  }

  lemma RowsDistinct(ratings: map<Name, int>, games: map<Name, nat>, es: seq<Entry>, rows: seq<Row>)
    requires forall e :: multiset(es)[e] <= 1
    requires forall i :: 0 <= i < |rows| ==>
      rows[i].name in ratings && rows[i].name in games &&
      rows[i].rating == ratings[rows[i].name] && rows[i].games == games[rows[i].name]
    requires forall e :: multiset(UnnumberedRows(rows))[e] == if e.games >= MinGames then multiset(es)[e] else 0
    ensures forall i, j :: 0 <= i < j < |rows| ==> rows[i].name != rows[j].name
  {
    var un := UnnumberedRows(rows);
    forall i, j | 0 <= i < j < |rows| ensures rows[i].name != rows[j].name {
      if rows[i].name == rows[j].name {
        assert un[i] == un[j];
        TwiceCounted(un, i, j);
        assert false;
      }
    }
  }

  lemma EntriesDistinct(roster: seq<Name>, ratings: map<Name, int>, games: map<Name, nat>, es: seq<Entry>)
    requires Distinct(roster) && (forall i :: 0 <= i < |roster| ==> roster[i] in ratings && roster[i] in games)
    requires es == EntriesOf(roster, ratings, games)
    ensures forall e :: multiset(es)[e] <= 1
    decreases |roster|
  {
    if roster != [] {
      var rest := EntriesOf(roster[1..], ratings, games);
      EntriesDistinct(roster[1..], ratings, games, rest);
      assert es == [es[0]] + rest;
      assert es[0] !in rest;
    }
  }

  lemma TwiceCounted(s: seq<Entry>, i: nat, j: nat)
    requires i < j < |s| && s[i] == s[j]
    ensures multiset(s)[s[i]] >= 2
  {
    assert s == s[..j] + s[j..];
    assert s[i] in s[..j];
    assert s[j..][0] == s[j];
  }
}
