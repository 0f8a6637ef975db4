/** Matches between teams and between players: a team scores its best
    player's score in the drawn game, the strictly higher score wins, and
    every match updates both teams' standings records. */
module Matches {
  import opened Base
  import opened Schedule

  /** One evaluation's player scores: the score of the `k`-th resolved roster
      player in the game.  It stands for the noisy floating-point formula,
      which draws fresh noise for every player it scores. */
  type ScoreOracle = (nat, Player, Game) -> int

  /** What one match takes from the random source: the game draw and the
      scores of each side's evaluation. */
  datatype MatchDraw = MatchDraw(game: Unit, scoreA: ScoreOracle, scoreB: ScoreOracle)

  /** `games[Math.floor(Math.random() * games.length)]`. */
  function DrawGame(games: seq<Game>, r: Unit): (g: Game)
    requires |games| > 0
    ensures g in games
  {
    games[DrawIndex(r, |games|)]
  }

  // ---------------------------------------------------------------------------
  // Team score

  /** `(team.roster || []).map(id => players.find(...)).filter(Boolean)`. */
  function ResolvedRoster(players: seq<Player>, roster: seq<Id>): (r: seq<Player>)
    ensures |r| <= |roster|
  {
    if roster == [] then []
    else
      var rest := ResolvedRoster(players, roster[1..]);
      match PlayerIndex(players, roster[0])
      case Some(i) => [players[i]] + rest
      case None => rest
  }

  /** The resolved roster holds players of the league, and is empty exactly
      when no roster id names a player. */
  lemma {:induction false} ResolvedRosterMembers(players: seq<Player>, roster: seq<Id>)
    ensures forall k :: 0 <= k < |ResolvedRoster(players, roster)| ==> ResolvedRoster(players, roster)[k] in players
    ensures ResolvedRoster(players, roster) == [] <==>
      forall k :: 0 <= k < |roster| ==> roster[k] !in PlayerIds(players)
  {
    if roster != [] {
      ResolvedRosterMembers(players, roster[1..]);
      assert forall k :: 1 <= k < |roster| ==> roster[k] == roster[1..][k - 1];
    }
  }

  /** The best score of a non-empty resolved roster, running from the left. */
  function BestScore(rs: seq<Player>, g: Game, score: ScoreOracle): int
    requires rs != []
  {
    if |rs| == 1 then score(0, rs[0], g)
    else
      var b := BestScore(rs[..|rs| - 1], g, score);
      var s := score(|rs| - 1, rs[|rs| - 1], g);
      if s > b then s else b
  }

  /** The running best is the maximum of the roster's scores. */
  lemma {:induction false} BestScoreIsMax(rs: seq<Player>, g: Game, score: ScoreOracle)
    requires rs != []
    ensures forall k :: 0 <= k < |rs| ==> score(k, rs[k], g) <= BestScore(rs, g, score)
    ensures exists k :: 0 <= k < |rs| && score(k, rs[k], g) == BestScore(rs, g, score)
  {
    if |rs| > 1 {
      var front := rs[..|rs| - 1];
      BestScoreIsMax(front, g, score);
      var b := BestScore(front, g, score);
      var last := score(|rs| - 1, rs[|rs| - 1], g);
      assert BestScore(rs, g, score) == if last > b then last else b;
      forall k | 0 <= k < |rs| ensures score(k, rs[k], g) <= BestScore(rs, g, score) {
        if k < |rs| - 1 {
          assert rs[k] == front[k];
        }
      }
      if last > b {
        assert score(|rs| - 1, rs[|rs| - 1], g) == BestScore(rs, g, score);
      } else {
        var k :| 0 <= k < |front| && score(k, front[k], g) == b;
        assert rs[k] == front[k];
        assert score(k, rs[k], g) == BestScore(rs, g, score);
      }
    } else {
      assert score(0, rs[0], g) == BestScore(rs, g, score);
    }
  }

  /** `teamScoreFromGame`: 0 when no roster id resolves, else the best player's score. */
  function TeamScore(players: seq<Player>, team: Team, g: Game, score: ScoreOracle): int {
    var rs := ResolvedRoster(players, team.roster);
    if rs == [] then 0 else BestScore(rs, g, score)
  }

  /** A team with no resolvable player scores 0; otherwise it scores exactly
      the best of its resolved players' scores. */
  lemma TeamScoreIsBest(players: seq<Player>, team: Team, g: Game, score: ScoreOracle)
    ensures ResolvedRoster(players, team.roster) == [] ==> TeamScore(players, team, g, score) == 0
    ensures var rs := ResolvedRoster(players, team.roster);
      rs != [] ==> (forall k :: 0 <= k < |rs| ==> score(k, rs[k], g) <= TeamScore(players, team, g, score)) &&
                   (exists k :: 0 <= k < |rs| && score(k, rs[k], g) == TeamScore(players, team, g, score))
  {
    var rs := ResolvedRoster(players, team.roster);
    if rs != [] {
      BestScoreIsMax(rs, g, score);
    }
  }

  /** `teamScoreFromGame` as written: a running best that starts below every score. */
  method TeamScoreFromGame(team: Team, players: seq<Player>, g: Game, score: ScoreOracle) returns (s: int)
    ensures s == TeamScore(players, team, g, score)
  {
    var roster := ResolvedRoster(players, team.roster);
    if |roster| == 0 {
      return 0;
    }
    var best: Option<int> := None;
    for k := 0 to |roster|
      invariant k == 0 <==> best.None?
      invariant k > 0 ==> best.value == BestScore(roster[..k], g, score)
    {
      var v := score(k, roster[k], g);
      assert roster[..k + 1][..k] == roster[..k];
      if best.None? || v > best.value {
        best := Some(v);
      }
    }
    assert roster[..|roster|] == roster;
    s := best.value;
  }

  // ---------------------------------------------------------------------------
  // One match

  /** `sa > sb ? a : (sb > sa ? b : null)`. */
  function Winner(a: Id, b: Id, sa: int, sb: int): (w: Option<Id>)
    ensures w.None? <==> sa == sb
    ensures sa > sb ==> w == Some(a)
    ensures sb > sa ==> w == Some(b)
  {
    if sa > sb then Some(a) else if sb > sa then Some(b) else None
  }

  /** A played match: the two team ids, the game, both scores and the winner. */
  datatype MatchResult = MatchResult(a: Id, b: Id, gameId: Id, scoreA: int, scoreB: int, winner: Option<Id>)

  /** `simulatePlayInMatch`, also the body of the week loop: draw a game, score
      both teams, the strictly higher score wins.  A team id that does not
      resolve, or an empty game catalogue, makes the source throw. */
  function PlayMatch(players: seq<Player>, teams: seq<Team>, games: seq<Game>, a: Id, b: Id, draw: MatchDraw): (r: MatchResult)
    requires a in TeamIds(teams) && b in TeamIds(teams) && |games| > 0
    ensures r.a == a && r.b == b
    ensures r.winner == Winner(a, b, r.scoreA, r.scoreB)
    ensures r.gameId in GameIds(games) && r.gameId == DrawGame(games, draw.game).id
    ensures r.scoreA == TeamScore(players, teams[TeamIndex(teams, a).value], DrawGame(games, draw.game), draw.scoreA)
    ensures r.scoreB == TeamScore(players, teams[TeamIndex(teams, b).value], DrawGame(games, draw.game), draw.scoreB)
  {
    var g := DrawGame(games, draw.game);
    var sa := TeamScore(players, teams[TeamIndex(teams, a).value], g, draw.scoreA);
    var sb := TeamScore(players, teams[TeamIndex(teams, b).value], g, draw.scoreB);
    MatchResult(a, b, g.id, sa, sb, Winner(a, b, sa, sb))
  }

  // ---------------------------------------------------------------------------
  // Standings

  /** A team's season record. */
  datatype Record = Record(wins: nat, losses: nat, ties: nat, pointsFor: int, pointsAgainst: int)

  const ZeroRecord: Record := Record(0, 0, 0, 0, 0)

  /** One key of the standings object, in the object's key order. */
  datatype Row = Row(teamId: Id, rec: Record)

  type Standings = seq<Row>

  function Keys(st: Standings): (ids: seq<Id>)
    ensures |ids| == |st|
    ensures forall k :: 0 <= k < |st| ==> ids[k] == st[k].teamId
  {
    seq(|st|, k requires 0 <= k < |st| => st[k].teamId)
  }

  /** An object has each key once. */
  predicate UniqueKeys(st: Standings) {
    forall i, j :: 0 <= i < j < |st| ==> st[i].teamId != st[j].teamId
  }

  /** `standings[id]`. */
  function RecordOf(st: Standings, id: Id): (r: Option<Record>)
    ensures r.Some? <==> id in Keys(st)
  {
    match IndexOf(Keys(st), id)
    case Some(k) => Some(st[k].rec)
    case None => None
  }

  /** The four in-place edits a match makes to a record. */
  datatype Edit = Win | Loss | Tie | Points(scored: int, conceded: int)

  function Apply(r: Record, e: Edit): Record {
    match e
    case Win => r.(wins := r.wins + 1)
    case Loss => r.(losses := r.losses + 1)
    case Tie => r.(ties := r.ties + 1)
    case Points(s, c) => r.(pointsFor := r.pointsFor + s, pointsAgainst := r.pointsAgainst + c)
  }

  /** Edit the record stored under `id`, in place. */
  function EditRow(st: Standings, id: Id, e: Edit): (r: Standings)
    requires id in Keys(st)
    ensures Keys(r) == Keys(st)
  {
    var k := IndexOf(Keys(st), id).value;
    var r := st[k := Row(id, Apply(st[k].rec, e))];
    assert Keys(r) == Keys(st);
    r
  }

  /** The win, loss or tie counters of one match. */
  function RecordOutcome(st: Standings, a: Id, b: Id, sa: int, sb: int): (r: Standings)
    requires a in Keys(st) && b in Keys(st)
    ensures Keys(r) == Keys(st)
  {
    if sa > sb then EditRow(EditRow(st, a, Win), b, Loss)
    else if sb > sa then EditRow(EditRow(st, b, Win), a, Loss)
    else EditRow(EditRow(st, a, Tie), b, Tie)
  }

  /** The standings updates of one match, in the source's order. */
  function RecordMatch(st: Standings, a: Id, b: Id, sa: int, sb: int): (r: Standings)
    requires a in Keys(st) && b in Keys(st)
    ensures Keys(r) == Keys(st)
  {
    EditRow(EditRow(RecordOutcome(st, a, b, sa, sb), a, Points(sa, sb)), b, Points(sb, sa))
  }

  /** The number of `true`s, as 0 or 1. */
  function Ind(c: bool): nat {
    if c then 1 else 0
  }

  lemma EditRowEffect(st: Standings, id: Id, e: Edit, x: Id)
    requires id in Keys(st) && x in Keys(st)
    ensures RecordOf(EditRow(st, id, e), x) == Some(if x == id then Apply(RecordOf(st, x).value, e) else RecordOf(st, x).value)
  {
    var r := EditRow(st, id, e);
    assert Keys(r) == Keys(st);
  }

  lemma OutcomeEffect(st: Standings, a: Id, b: Id, sa: int, sb: int, x: Id)
    requires a in Keys(st) && b in Keys(st) && x in Keys(st) && a != b
    ensures var before := RecordOf(st, x).value;
      var after := RecordOf(RecordOutcome(st, a, b, sa, sb), x).value;
      && (x == a ==> after == before.(wins := before.wins + Ind(sa > sb), losses := before.losses + Ind(sb > sa),
                                      ties := before.ties + Ind(sa == sb)))
      && (x == b ==> after == before.(wins := before.wins + Ind(sb > sa), losses := before.losses + Ind(sa > sb),
                                      ties := before.ties + Ind(sa == sb)))
      && (x != a && x != b ==> after == before)
  {
    if sa > sb {
      EditRowEffect(st, a, Win, x);
      EditRowEffect(EditRow(st, a, Win), b, Loss, x);
    } else if sb > sa {
      EditRowEffect(st, b, Win, x);
      EditRowEffect(EditRow(st, b, Win), a, Loss, x);
    } else {
      EditRowEffect(st, a, Tie, x);
      EditRowEffect(EditRow(st, a, Tie), b, Tie, x);
    }
  }

  /** Between two different teams a match records exactly one outcome (a win
      and a loss, or two ties, decided by strict comparison) and adds each
      side's score to its points for and the other's to its points against;
      no other record changes. */
  lemma RecordMatchEffect(st: Standings, a: Id, b: Id, sa: int, sb: int, x: Id)
    requires a in Keys(st) && b in Keys(st) && x in Keys(st) && a != b
    ensures var before := RecordOf(st, x).value;
      var after := RecordOf(RecordMatch(st, a, b, sa, sb), x).value;
      && (x == a ==> after == Record(before.wins + Ind(sa > sb), before.losses + Ind(sb > sa), before.ties + Ind(sa == sb),
                                     before.pointsFor + sa, before.pointsAgainst + sb))
      && (x == b ==> after == Record(before.wins + Ind(sb > sa), before.losses + Ind(sa > sb), before.ties + Ind(sa == sb),
                                     before.pointsFor + sb, before.pointsAgainst + sa))
      && (x != a && x != b ==> after == before)
  {
    var st1 := RecordOutcome(st, a, b, sa, sb);
    OutcomeEffect(st, a, b, sa, sb, x);
    EditRowEffect(st1, a, Points(sa, sb), x);
    EditRowEffect(EditRow(st1, a, Points(sa, sb)), b, Points(sb, sa), x);
  }

  // ---------------------------------------------------------------------------
  // League-wide totals

  /** Column sums of the standings. */
  datatype Tally = Tally(wins: int, losses: int, ties: int, pointsFor: int, pointsAgainst: int)

  function Plus(t: Tally, r: Record): Tally {
    Tally(t.wins + r.wins, t.losses + r.losses, t.ties + r.ties, t.pointsFor + r.pointsFor, t.pointsAgainst + r.pointsAgainst)
  }

  function Totals(st: Standings): Tally {
    if st == [] then Tally(0, 0, 0, 0, 0) else Plus(Totals(st[..|st| - 1]), st[|st| - 1].rec)
  }

  /** Replacing one row changes the totals by the difference of the two records. */
  lemma {:induction false} TotalsUpdate(st: Standings, k: nat, row: Row)
    requires k < |st|
    ensures Plus(Totals(st), row.rec) == Plus(Totals(st[k := row]), st[k].rec)
    decreases |st|
  {
    var n := |st| - 1;
    var st' := st[k := row];
    assert st'[..n] == if k == n then st[..n] else st[..n][k := row];
    if k < n {
      TotalsUpdate(st[..n], k, row);
    }
  }

  lemma EditRowTotals(st: Standings, id: Id, e: Edit)
    requires id in Keys(st)
    ensures var t := Totals(st); var t' := Totals(EditRow(st, id, e));
      match e
      case Win => t' == t.(wins := t.wins + 1)
      case Loss => t' == t.(losses := t.losses + 1)
      case Tie => t' == t.(ties := t.ties + 1)
      case Points(s, c) => t' == t.(pointsFor := t.pointsFor + s, pointsAgainst := t.pointsAgainst + c)
  {
    var k := IndexOf(Keys(st), id).value;
    TotalsUpdate(st, k, Row(id, Apply(st[k].rec, e)));
  }

  /** Every match, even a team against itself, adds one win and one loss or
      two ties, and the same points to the league's points for and against:
      wins minus losses and points for minus points against are conserved. */
  lemma RecordMatchTotals(st: Standings, a: Id, b: Id, sa: int, sb: int)
    requires a in Keys(st) && b in Keys(st)
    ensures var t := Totals(st); var t' := Totals(RecordMatch(st, a, b, sa, sb));
      && t'.wins == t.wins + Ind(sa != sb)
      && t'.losses == t.losses + Ind(sa != sb)
      && t'.ties == t.ties + 2 * Ind(sa == sb)
      && t'.pointsFor == t.pointsFor + sa + sb
      && t'.pointsAgainst == t.pointsAgainst + sa + sb
  {
    if sa > sb {
      EditRowTotals(st, a, Win);
      EditRowTotals(EditRow(st, a, Win), b, Loss);
    } else if sb > sa {
      EditRowTotals(st, b, Win);
      EditRowTotals(EditRow(st, b, Win), a, Loss);
    } else {
      EditRowTotals(st, a, Tie);
      EditRowTotals(EditRow(st, a, Tie), b, Tie);
    }
    var st1 := RecordOutcome(st, a, b, sa, sb);
    EditRowTotals(st1, a, Points(sa, sb));
    EditRowTotals(EditRow(st1, a, Points(sa, sb)), b, Points(sb, sa));
  }

  // ---------------------------------------------------------------------------
  // A week of matches

  /** `standings[t.id] = standings[t.id] || zero` for every team, in team order:
      a missing key is appended with a zero record. */
  function EnsureRows(st: Standings, ids: seq<Id>): (r: Standings)
    ensures |r| >= |st| && r[..|st|] == st
    ensures forall k :: |st| <= k < |r| ==> r[k].rec == ZeroRecord
    ensures forall id :: id in Keys(r) <==> id in Keys(st) || id in ids
    ensures UniqueKeys(st) ==> UniqueKeys(r)
  {
    if ids == [] then st
    else
      var prior := EnsureRows(st, ids[..|ids| - 1]);
      var id := ids[|ids| - 1];
      assert forall x :: x in ids <==> x in ids[..|ids| - 1] || x == id;
      if id in Keys(prior) then prior
      else
        var r := prior + [Row(id, ZeroRecord)];
        assert Keys(r) == Keys(prior) + [id];
        assert r[..|prior|] == prior;
        r
  }

  lemma EnsureRowsSnoc(st: Standings, ids: seq<Id>, id: Id)
    ensures EnsureRows(st, ids + [id]) ==
      if id in Keys(EnsureRows(st, ids)) then EnsureRows(st, ids) else EnsureRows(st, ids) + [Row(id, ZeroRecord)]
  {
    assert (ids + [id])[..|ids|] == ids;
  }

  /** Every match of the week names two teams. */
  predicate MatchesResolve(teams: seq<Team>, ms: seq<Match>) {
    forall k :: 0 <= k < |ms| ==> ms[k].a in TeamIds(teams) && ms[k].b in TeamIds(teams)
  }

  /** The results of the week's matches; match `k` uses draw `k`. */
  function WeekResults(players: seq<Player>, teams: seq<Team>, games: seq<Game>, ms: seq<Match>,
                       draws: nat -> MatchDraw): (rs: seq<MatchResult>)
    requires MatchesResolve(teams, ms) && (ms != [] ==> |games| > 0)
    ensures |rs| == |ms|
    ensures forall k :: 0 <= k < |ms| ==> rs[k].a == ms[k].a && rs[k].b == ms[k].b
    ensures forall k :: 0 <= k < |ms| ==> rs[k].winner == Winner(ms[k].a, ms[k].b, rs[k].scoreA, rs[k].scoreB)
    ensures forall k :: 0 <= k < |ms| ==> rs[k] == PlayMatch(players, teams, games, ms[k].a, ms[k].b, draws(k))
  {
    var rs := seq(|ms|, k requires 0 <= k < |ms| => PlayMatch(players, teams, games, ms[k].a, ms[k].b, draws(k)));
    assert forall k :: 0 <= k < |ms| ==> rs[k] == PlayMatch(players, teams, games, ms[k].a, ms[k].b, draws(k));
    rs
  }

  /** Match `k` of the week is played in the game its draw picks, and each
      side scores its team score there: its best resolved player's score, or
      0 when no roster id resolves. */
  lemma WeekScores(players: seq<Player>, teams: seq<Team>, games: seq<Game>, ms: seq<Match>,
                   draws: nat -> MatchDraw, k: nat)
    requires MatchesResolve(teams, ms) && (ms != [] ==> |games| > 0) && k < |ms|
    ensures var rs := WeekResults(players, teams, games, ms, draws);
      var g := DrawGame(games, draws(k).game);
      && rs[k].gameId == g.id
      && rs[k].scoreA == TeamScore(players, teams[TeamIndex(teams, ms[k].a).value], g, draws(k).scoreA)
      && rs[k].scoreB == TeamScore(players, teams[TeamIndex(teams, ms[k].b).value], g, draws(k).scoreB)
  {
    var rs := WeekResults(players, teams, games, ms, draws);
    assert rs[k] == PlayMatch(players, teams, games, ms[k].a, ms[k].b, draws(k));
  }

  /** Every result names two keys of the standings. */
  predicate ResultsRecorded(st: Standings, rs: seq<MatchResult>) {
    forall k :: 0 <= k < |rs| ==> rs[k].a in Keys(st) && rs[k].b in Keys(st)
  }

  /** The standings updates of the week's results, from the left. */
  function RecordAll(st: Standings, rs: seq<MatchResult>): (r: Standings)
    requires ResultsRecorded(st, rs)
    ensures Keys(r) == Keys(st)
  {
    if rs == [] then st
    else
      var n := |rs| - 1;
      assert ResultsRecorded(st, rs[..n]);
      RecordMatch(RecordAll(st, rs[..n]), rs[n].a, rs[n].b, rs[n].scoreA, rs[n].scoreB)
  }

  lemma ResultsRecordedSnoc(st: Standings, rs: seq<MatchResult>, m: MatchResult)
    requires ResultsRecorded(st, rs) && m.a in Keys(st) && m.b in Keys(st)
    ensures ResultsRecorded(st, rs + [m])
    ensures RecordAll(st, rs + [m]) == RecordMatch(RecordAll(st, rs), m.a, m.b, m.scoreA, m.scoreB)
  {
    assert (rs + [m])[..|rs|] == rs;
  }

  /** Over any sequence of results, wins minus losses and points for minus
      points against stay what they were, and every match adds two outcomes. */
  lemma {:induction false} RecordAllTotals(st: Standings, rs: seq<MatchResult>)
    requires ResultsRecorded(st, rs)
    ensures var t := Totals(st); var t' := Totals(RecordAll(st, rs));
      && t'.wins - t'.losses == t.wins - t.losses
      && t'.pointsFor - t'.pointsAgainst == t.pointsFor - t.pointsAgainst
      && (t'.wins + t'.losses + t'.ties) - (t.wins + t.losses + t.ties) == 2 * |rs|
  {
    if rs != [] {
      var n := |rs| - 1;
      assert ResultsRecorded(st, rs[..n]);
      RecordAllTotals(st, rs[..n]);
      RecordMatchTotals(RecordAll(st, rs[..n]), rs[n].a, rs[n].b, rs[n].scoreA, rs[n].scoreB);
    }
  }

  // ---------------------------------------------------------------------------
  // What each team is credited with

  /** What one result adds to team `x`'s record: the outcome and scores of
      each side `x` played (both sides when a team meets itself). */
  function Credit(m: MatchResult, x: Id): Record {
    var asA := x == m.a;
    var asB := x == m.b;
    Record(Ind(asA && m.scoreA > m.scoreB) + Ind(asB && m.scoreB > m.scoreA),
           Ind(asA && m.scoreB > m.scoreA) + Ind(asB && m.scoreA > m.scoreB),
           Ind(asA && m.scoreA == m.scoreB) + Ind(asB && m.scoreA == m.scoreB),
           (if asA then m.scoreA else 0) + (if asB then m.scoreB else 0),
           (if asA then m.scoreB else 0) + (if asB then m.scoreA else 0))
  }

  function Add(r: Record, c: Record): Record {
    Record(r.wins + c.wins, r.losses + c.losses, r.ties + c.ties,
           r.pointsFor + c.pointsFor, r.pointsAgainst + c.pointsAgainst)
  }

  /** The sum of the credits of a sequence of results. */
  function Credits(rs: seq<MatchResult>, x: Id): Record {
    if rs == [] then ZeroRecord else Add(Credits(rs[..|rs| - 1], x), Credit(rs[|rs| - 1], x))
  }

  /** A match adds exactly its credit to every record, the two teams' and
      (as nothing) everybody else's. */
  lemma RecordMatchCredit(st: Standings, m: MatchResult, x: Id)
    requires m.a in Keys(st) && m.b in Keys(st) && x in Keys(st)
    ensures RecordOf(RecordMatch(st, m.a, m.b, m.scoreA, m.scoreB), x) == Some(Add(RecordOf(st, x).value, Credit(m, x)))
  {
    var a, b, sa, sb := m.a, m.b, m.scoreA, m.scoreB;
    var first, e1, second, e2 := if sb > sa then b else a, if sa == sb then Tie else Win,
                                 if sb > sa then a else b, if sa == sb then Tie else Loss;
    var st1 := EditRow(st, first, e1);
    var st2 := EditRow(st1, second, e2);
    var st3 := EditRow(st2, a, Points(sa, sb));
    assert st2 == RecordOutcome(st, a, b, sa, sb);
    var r0 := RecordOf(st, x).value;
    var r1 := if x == first then Apply(r0, e1) else r0;
    var r2 := if x == second then Apply(r1, e2) else r1;
    var r3 := if x == a then Apply(r2, Points(sa, sb)) else r2;
    var r4 := if x == b then Apply(r3, Points(sb, sa)) else r3;
    assert RecordOf(st1, x) == Some(r1) by { EditRowEffect(st, first, e1, x); }
    assert RecordOf(st2, x) == Some(r2) by { EditRowEffect(st1, second, e2, x); }
    assert RecordOf(st3, x) == Some(r3) by { EditRowEffect(st2, a, Points(sa, sb), x); }
    assert RecordOf(EditRow(st3, b, Points(sb, sa)), x) == Some(r4) by { EditRowEffect(st3, b, Points(sb, sa), x); }
    CreditAddsUp(m, x, first, e1, second, e2, r0, r1, r2, r3, r4);
  }

  /** The four record edits of a match, applied to `x`'s record, add its credit. */
  lemma CreditAddsUp(m: MatchResult, x: Id, first: Id, e1: Edit, second: Id, e2: Edit,
                     r0: Record, r1: Record, r2: Record, r3: Record, r4: Record)
    requires first == (if m.scoreB > m.scoreA then m.b else m.a) && second == (if m.scoreB > m.scoreA then m.a else m.b)
    requires e1 == (if m.scoreA == m.scoreB then Tie else Win) && e2 == (if m.scoreA == m.scoreB then Tie else Loss)
    requires r1 == (if x == first then Apply(r0, e1) else r0)
    requires r2 == (if x == second then Apply(r1, e2) else r1)
    requires r3 == (if x == m.a then Apply(r2, Points(m.scoreA, m.scoreB)) else r2)
    requires r4 == (if x == m.b then Apply(r3, Points(m.scoreB, m.scoreA)) else r3)
    ensures r4 == Add(r0, Credit(m, x))
  {
    if m.scoreA > m.scoreB {
    } else if m.scoreB > m.scoreA {
    } else {
    }
  }

  /** Recording a sequence of results adds their summed credits to every record. */
  lemma {:induction false} RecordAllCredits(st: Standings, rs: seq<MatchResult>, x: Id)
    requires ResultsRecorded(st, rs) && x in Keys(st)
    ensures RecordOf(RecordAll(st, rs), x) == Some(Add(RecordOf(st, x).value, Credits(rs, x)))
  {
    if rs != [] {
      var n := |rs| - 1;
      var before := RecordOf(st, x).value;
      assert ResultsRecorded(st, rs[..n]);
      var prev := RecordAll(st, rs[..n]);
      var c := Credits(rs[..n], x);
      assert RecordOf(prev, x) == Some(Add(before, c)) by {
        RecordAllCredits(st, rs[..n], x);
      }
      assert RecordOf(RecordAll(st, rs), x) == Some(Add(Add(before, c), Credit(rs[n], x))) by {
        RecordMatchCredit(prev, rs[n], x);
      }
      AddAssoc(before, c, Credit(rs[n], x));
    }
  }

  lemma AddAssoc(a: Record, b: Record, c: Record)
    ensures Add(Add(a, b), c) == Add(a, Add(b, c))
  {
  }

  /** Ensuring rows keeps every existing record and gives each new id a zero record. */
  lemma EnsureRowsRecord(st: Standings, ids: seq<Id>, x: Id)
    requires x in Keys(st) || x in ids
    ensures RecordOf(EnsureRows(st, ids), x) == Some(if x in Keys(st) then RecordOf(st, x).value else ZeroRecord)
  {
    var r := EnsureRows(st, ids);
    assert Keys(r) == Keys(st) + Keys(r[|st|..]) by {
      assert r == st + r[|st|..];
    }
    IndexOfExtension(Keys(st), Keys(r[|st|..]), x);
  }

  /** Appending to a sequence does not move the first occurrence of an id it already held. */
  lemma IndexOfExtension(pre: seq<Id>, post: seq<Id>, x: Id)
    ensures x in pre ==> IndexOf(pre + post, x) == IndexOf(pre, x)
    ensures x !in pre && IndexOf(pre + post, x).Some? ==> IndexOf(pre + post, x).value >= |pre|
  {
    var whole := pre + post;
    if x in pre {
      var j := IndexOf(pre, x).value;
      var k := IndexOf(whole, x).value;
      assert whole[j] == x;
      assert k <= j;
      assert pre[k] == x;
    } else if IndexOf(whole, x).Some? {
      assert forall i :: 0 <= i < |pre| ==> whole[i] == pre[i];
    }
  }

  /** The zero rows that `EnsureRows` appends leave the league totals alone. */
  lemma {:induction false} EnsureRowsTotals(st: Standings, ids: seq<Id>)
    ensures Totals(EnsureRows(st, ids)) == Totals(st)
  {
    if ids != [] {
      var prior := EnsureRows(st, ids[..|ids| - 1]);
      assert Totals(prior) == Totals(st) by {
        EnsureRowsTotals(st, ids[..|ids| - 1]);
      }
      var row := Row(ids[|ids| - 1], ZeroRecord);
      assert Totals(prior + [row]) == Totals(prior) by {
        assert (prior + [row])[..|prior|] == prior;
      }
    }
  }

  // ---------------------------------------------------------------------------
  // The one-off duel

  /** One side of a duel as reported. */
  datatype DuelSide = DuelSide(id: Id, name: string, score: int)

  datatype Duel = Duel(game: Game, playerA: DuelSide, playerB: DuelSide, winner: Option<Id>)

  datatype DuelResult = DuelError(message: string) | DuelOk(duel: Duel)

  const InvalidIds: string := "invalid ids"

  /** `simulate1v1`: resolve both players and the game, score each player once. */
  function Simulate1v1(players: seq<Player>, games: seq<Game>, aId: Id, bId: Id, gameId: Id,
                       scoreA: (Player, Game) -> int, scoreB: (Player, Game) -> int): (r: DuelResult)
    ensures r.DuelError? <==> aId !in PlayerIds(players) || bId !in PlayerIds(players) || gameId !in GameIds(games)
    ensures r.DuelError? ==> r.message == InvalidIds
    ensures r.DuelOk? ==> r.duel.game.id == gameId && r.duel.playerA.id == aId && r.duel.playerB.id == bId
    ensures r.DuelOk? ==> r.duel.winner == Winner(aId, bId, r.duel.playerA.score, r.duel.playerB.score)
    ensures r.DuelOk? ==>
      var a := players[PlayerIndex(players, aId).value];
      var b := players[PlayerIndex(players, bId).value];
      var g := games[GameIndex(games, gameId).value];
      && r.duel.game == g
      && r.duel.playerA == DuelSide(a.id, a.displayName, scoreA(a, g))
      && r.duel.playerB == DuelSide(b.id, b.displayName, scoreB(b, g))
  {
    match (PlayerIndex(players, aId), PlayerIndex(players, bId), GameIndex(games, gameId))
    case (Some(i), Some(j), Some(k)) =>
      var a, b, g := players[i], players[j], games[k];
      var sa, sb := scoreA(a, g), scoreB(b, g);
      DuelOk(Duel(g, DuelSide(a.id, a.displayName, sa), DuelSide(b.id, b.displayName, sb), Winner(a.id, b.id, sa, sb)))
    case _ => DuelError(InvalidIds)
  }

  /** The duel is fair: exchanging the two sides (with their draws) names the same winner. */
  lemma DuelSymmetric(players: seq<Player>, games: seq<Game>, aId: Id, bId: Id, gameId: Id,
                      scoreA: (Player, Game) -> int, scoreB: (Player, Game) -> int)
    ensures var r := Simulate1v1(players, games, aId, bId, gameId, scoreA, scoreB);
      var s := Simulate1v1(players, games, bId, aId, gameId, scoreB, scoreA);
      r.DuelOk? <==> s.DuelOk?
    ensures var r := Simulate1v1(players, games, aId, bId, gameId, scoreA, scoreB);
      var s := Simulate1v1(players, games, bId, aId, gameId, scoreB, scoreA);
      r.DuelOk? ==> s.duel.winner == r.duel.winner && s.duel.playerA == r.duel.playerB && s.duel.playerB == r.duel.playerA
  {
  }
}
