/** Shared vocabulary of the league engine: optional values, random draws,
    identifiers and the three catalogue entities (players, teams, games). */
module Base {

  datatype Option<+T> = None | Some(value: T)

  /** One draw of the platform's uniform random source: a real in [0, 1). */
  type Unit = r: real | 0.0 <= r < 1.0

  /** `Math.floor(r * n)`: the index that the draw `r` selects among `n` choices. */
  function DrawIndex(r: Unit, n: nat): (k: nat)
    requires n > 0
    ensures k < n
    ensures r == 0.0 ==> k == 0
  {
    assert r * (n as real) < n as real by {
      assert (1.0 - r) * (n as real) > 0.0;
    }
    (r * n as real).Floor
  }

  /** Identifiers are strings, as in the stored league document. */
  type Id = string

  /** A JavaScript string is truthy exactly when it is not empty. */
  predicate Truthy(id: Id) {
    id != ""
  }

  /** Join dates are compared as calendar keys written YYYYMMDD. */
  type DateKey = int

  /** The join date the round-three order gives a team whose leader cannot be found (9999-01-01). */
  const MissingLeaderJoinDate: DateKey := 99990101

  /** A player; `tier` 0 marks a team leader, 1..3 the draftable strength bands. */
  datatype Player = Player(id: Id, displayName: string, tier: int, teamId: Option<Id>, joinDate: DateKey)

  /** A team; `roster` holds the ids of its drafted players, in draft order. */
  datatype Team = Team(id: Id, name: string, leaderId: Id, roster: seq<Id>)

  /** A game of the catalogue; difficulty and weight feed only the score formula. */
  datatype Game = Game(id: Id, title: string, difficulty: real, weight: Option<real>)

  /** A player is free to be drafted when its team reference is absent or empty (falsy). */
  predicate Unassigned(p: Player) {
    p.teamId.None? || !Truthy(p.teamId.value)
  }

  /** The first position holding `id`: `find` by id, as an index. */
  function IndexOf(ids: seq<Id>, id: Id): (r: Option<nat>)
    ensures r.Some? ==> r.value < |ids| && ids[r.value] == id
    ensures r.Some? ==> forall k :: 0 <= k < r.value ==> ids[k] != id
    ensures r.None? <==> id !in ids
  {
    if |ids| == 0 then None
    else if ids[0] == id then Some(0)
    else match IndexOf(ids[1..], id)
      case None => None
      case Some(k) => Some(k + 1)
  }

  function PlayerIds(players: seq<Player>): (ids: seq<Id>)
    ensures |ids| == |players|
    ensures forall k :: 0 <= k < |players| ==> ids[k] == players[k].id
  {
    seq(|players|, k requires 0 <= k < |players| => players[k].id)
  }

  function TeamIds(teams: seq<Team>): (ids: seq<Id>)
    ensures |ids| == |teams|
    ensures forall k :: 0 <= k < |teams| ==> ids[k] == teams[k].id
  {
    seq(|teams|, k requires 0 <= k < |teams| => teams[k].id)
  }

  function GameIds(games: seq<Game>): (ids: seq<Id>)
    ensures |ids| == |games|
    ensures forall k :: 0 <= k < |games| ==> ids[k] == games[k].id
  {
    seq(|games|, k requires 0 <= k < |games| => games[k].id)
  }

  /** `players.find(p => p.id === id)`, as an index. */
  function PlayerIndex(players: seq<Player>, id: Id): Option<nat> {
    IndexOf(PlayerIds(players), id)
  }

  /** `teams.find(t => t.id === id)`, as an index. */
  function TeamIndex(teams: seq<Team>, id: Id): Option<nat> {
    IndexOf(TeamIds(teams), id)
  }

  /** `games.find(g => g.id === id)`, as an index. */
  function GameIndex(games: seq<Game>, id: Id): Option<nat> {
    IndexOf(GameIds(games), id)
  }

  /** No two players share an id (ids are generated, so a stored league has this). */
  predicate UniquePlayerIds(players: seq<Player>) {
    forall i, j :: 0 <= i < j < |players| ==> players[i].id != players[j].id
  }

  function Min(a: int, b: int): int {
    if a < b then a else b
  }
}
