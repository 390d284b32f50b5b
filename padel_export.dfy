/** The ranking table of the padel ELO engine: the players with enough games,
    best rating first, numbered from 1. Writing the table to a file is not
    part of this model. */
module PadelExport {

  type Name = string

  /** One row of the table before numbering: a player as the rating and
      games dictionaries hold it. */
  datatype Entry = Entry(name: Name, rating: int, games: nat)

  /** One row of the exported table: Position, Name, Elo Rating, Games. */
  datatype Row = Row(position: nat, name: Name, rating: int, games: nat)

  /** Players with fewer games are left out of the ranking. */
  const MinGames: nat := 8

  predicate SortedByRating(s: seq<Entry>)
  {
    forall i, j :: 0 <= i < j < |s| ==> s[i].rating >= s[j].rating
  }

  /** The rows of the dictionaries, in the dictionaries' key order. */
  function EntriesOf(names: seq<Name>, ratings: map<Name, int>, games: map<Name, nat>): (es: seq<Entry>)
    requires forall i :: 0 <= i < |names| ==> names[i] in ratings && names[i] in games
    ensures |es| == |names|
    ensures forall i :: 0 <= i < |es| ==>
      es[i] == Entry(names[i], ratings[names[i]], games[names[i]])
  {
    if names == [] then []
    else [Entry(names[0], ratings[names[0]], games[names[0]])] + EntriesOf(names[1..], ratings, games)
  }

  /** The filter Games >= MinGames; it keeps each eligible row as often as it
      occurs and drops every other one. */
  function Eligible(es: seq<Entry>): (r: seq<Entry>)
    ensures forall e :: multiset(r)[e] == if e.games >= MinGames then multiset(es)[e] else 0
  {
    if es == [] then []
    else
      assert es == [es[0]] + es[1..];
      (if es[0].games >= MinGames then [es[0]] else []) + Eligible(es[1..])
  }

  /** Puts e into a table sorted by rating, highest first. */
  function Insert(e: Entry, s: seq<Entry>): (r: seq<Entry>)
    requires SortedByRating(s)
    ensures SortedByRating(r)
    ensures multiset(r) == multiset(s) + multiset{e}
  {
    if s == [] then [e]
    else if e.rating >= s[0].rating then [e] + s
    else
      var rest := Insert(e, s[1..]);
      assert s == [s[0]] + s[1..];
      InsertBehindHead(e, s, rest);
      [s[0]] + rest
  }

  lemma InsertBehindHead(e: Entry, s: seq<Entry>, rest: seq<Entry>)
    requires SortedByRating(s) && s != [] && e.rating < s[0].rating
    requires SortedByRating(rest) && multiset(rest) == multiset(s[1..]) + multiset{e}
    ensures SortedByRating([s[0]] + rest)
  {
    forall j | 0 <= j < |rest| ensures rest[j].rating <= s[0].rating {
      assert rest[j] in multiset(rest);
      if rest[j] != e {
        assert rest[j] in multiset(s[1..]);
        var k :| 1 <= k < |s| && s[k] == rest[j];
      }
    }
    var r := [s[0]] + rest;
    forall i, j | 0 <= i < j < |r| ensures r[i].rating >= r[j].rating {
      if i > 0 {
        assert r[i] == rest[i - 1] && r[j] == rest[j - 1];
      } else {
        assert r[j] == rest[j - 1];
      }
    }
  }

  /** sort_values(by='Elo Rating', ascending=False). The sort is a
      permutation and leaves ratings non-increasing; the order it gives tied
      ratings is one of those the unstable library sort may give. */
  function SortByRating(s: seq<Entry>): (r: seq<Entry>)
    ensures SortedByRating(r)
    ensures multiset(r) == multiset(s)
  {
    if s == [] then []
    else
      assert s == [s[0]] + s[1..];
      Insert(s[0], SortByRating(s[1..]))
  }

  /** Position = range(1, n + 1) in table order. */
  function Number(s: seq<Entry>): (rows: seq<Row>)
    ensures |rows| == |s|
    ensures forall i :: 0 <= i < |rows| ==>
      rows[i] == Row(i + 1, s[i].name, s[i].rating, s[i].games)
  {
    seq(|s|, i requires 0 <= i < |s| => Row(i + 1, s[i].name, s[i].rating, s[i].games))
  }

  /** The entry a table row shows, without its position. */
  function Unnumbered(row: Row): Entry
  {
    Entry(row.name, row.rating, row.games)
  }

  function UnnumberedRows(rows: seq<Row>): (es: seq<Entry>)
    ensures |es| == |rows|
    ensures forall i :: 0 <= i < |rows| ==> es[i] == Unnumbered(rows[i])
  {
    seq(|rows|, i requires 0 <= i < |rows| => Unnumbered(rows[i]))
  }

  /** The names a table shows. */
  function NamesOfRows(rows: seq<Row>): set<Name>
  {
    set i | 0 <= i < |rows| :: rows[i].name
  }

  /** The players with at least MinGames games. */
  function EligibleNames(ratings: map<Name, int>, games: map<Name, nat>): set<Name>
  {
    set p | p in ratings && p in games && games[p] >= MinGames
  }

  /** create_elo_rating_file without the file write: the table holds each
      entry with at least MinGames games exactly as often as the input does
      and no other entry, ratings do not increase down the table, and the
      positions are 1, 2, ..., n in table order. */
  function CreateEloRatingTable(es: seq<Entry>): (rows: seq<Row>)
    ensures forall e :: multiset(UnnumberedRows(rows))[e] == if e.games >= MinGames then multiset(es)[e] else 0
    ensures forall i, j :: 0 <= i < j < |rows| ==> rows[i].rating >= rows[j].rating
    ensures forall i :: 0 <= i < |rows| ==> rows[i].position == i + 1
  {
    var sorted := SortByRating(Eligible(es));
    var rows := Number(sorted);
    assert UnnumberedRows(rows) == sorted;
    rows
  }
}
