/** The end of a season: standings ranked by wins then points for, seeds 7
    to 10 playing in when there are exactly ten teams, a single-elimination
    bracket pairing the best remaining seed with the worst, and the awards. */
module Playoffs {
  import opened Base
  import opened Sorting
  import opened Skill
  import opened Matches

  // ---------------------------------------------------------------------------
  // Seeding

  /** One entry of the ranked standings array. */
  datatype Seed = Seed(teamId: Id, wins: nat, ties: nat, pointsFor: int)

  /** `Object.keys(standings).map(...)`, in key order. */
  function SeedsOf(st: Standings): (s: seq<Seed>)
    ensures |s| == |st|
    ensures forall k :: 0 <= k < |st| ==>
      s[k] == Seed(st[k].teamId, st[k].rec.wins, st[k].rec.ties, st[k].rec.pointsFor)
  {
    seq(|st|, k requires 0 <= k < |st| => Seed(st[k].teamId, st[k].rec.wins, st[k].rec.ties, st[k].rec.pointsFor))
  }

  /** The comparator: more wins first, then more points for. */
  function ByWinsThenPoints(s: Seed): Rank {
    Rank(s.wins, s.pointsFor)
  }

  /** The ranked standings: a stable sort of the key-order entries. */
  function Ranked(st: Standings): seq<Seed> {
    SortByRank(SeedsOf(st), ByWinsThenPoints)
  }

  /** Entries tied on wins and points for keep the standings' key order. */
  lemma RankedStable(st: Standings, wins: nat, pointsFor: int)
    ensures OfRank(Ranked(st), ByWinsThenPoints, Rank(wins, pointsFor)) ==
            OfRank(SeedsOf(st), ByWinsThenPoints, Rank(wins, pointsFor))
  {
    SortStable(SeedsOf(st), ByWinsThenPoints, Rank(wins, pointsFor));
  }

  /** The ranking is a rearrangement of the standings entries in which wins
      never increase and, among equal wins, points for never increase. */
  lemma RankedOrder(st: Standings)
    ensures multiset(Ranked(st)) == multiset(SeedsOf(st))
    ensures |Ranked(st)| == |st|
    ensures forall i, j :: 0 <= i < j < |Ranked(st)| ==>
      Ranked(st)[i].wins >= Ranked(st)[j].wins &&
      (Ranked(st)[i].wins == Ranked(st)[j].wins ==> Ranked(st)[i].pointsFor >= Ranked(st)[j].pointsFor)
  {
    SortPermutes(SeedsOf(st), ByWinsThenPoints);
    SortSorts(SeedsOf(st), ByWinsThenPoints);
    var r := Ranked(st);
    forall i, j | 0 <= i < j < |r|
      ensures r[i].wins >= r[j].wins && (r[i].wins == r[j].wins ==> r[i].pointsFor >= r[j].pointsFor)
    {
      assert !Outranks(ByWinsThenPoints(r[j]), ByWinsThenPoints(r[i]));
    }
  }

  function SeedIds(s: seq<Seed>): (ids: seq<Id>)
    ensures |ids| == |s|
    ensures forall k :: 0 <= k < |s| ==> ids[k] == s[k].teamId
  {
    seq(|s|, k requires 0 <= k < |s| => s[k].teamId)
  }

  /** Every ranked team is a key of the standings. */
  lemma RankedIdsAreKeys(st: Standings)
    ensures forall id :: id in SeedIds(Ranked(st)) ==> id in Keys(st)
  {
    RankedOrder(st);
    forall id | id in SeedIds(Ranked(st)) ensures id in Keys(st) {
      var k :| 0 <= k < |Ranked(st)| && SeedIds(Ranked(st))[k] == id;
      SortedMember(SeedsOf(st), ByWinsThenPoints, k);
      var j :| 0 <= j < |st| && SeedsOf(st)[j] == Ranked(st)[k];
      assert Keys(st)[j] == id;
    }
  }

  // ---------------------------------------------------------------------------
  // Advancing winners

  /** What one result contributes to the next round: its winner, when truthy. */
  function Advance(m: MatchResult): (ids: seq<Id>)
    ensures |ids| <= 1
    ensures ids == [] <==> m.winner.None? || !Truthy(m.winner.value)
  {
    if m.winner.Some? && Truthy(m.winner.value) then [m.winner.value] else []
  }

  /** `results.filter(r => r.winner).map(r => r.winner)`: the truthy winners, in order. */
  function Advancers(rs: seq<MatchResult>): (ids: seq<Id>)
    ensures |ids| <= |rs|
    ensures forall i :: 0 <= i < |ids| ==> Truthy(ids[i])
  {
    if rs == [] then [] else Advancers(rs[..|rs| - 1]) + Advance(rs[|rs| - 1])
  }

  /** Appending one result appends its winner, when truthy. */
  lemma AdvancersSnoc(rs: seq<MatchResult>, m: MatchResult)
    ensures Advancers(rs + [m]) == Advancers(rs) + Advance(m)
  {
    assert (rs + [m])[..|rs|] == rs;
  }

  lemma AdvancersPair(m1: MatchResult, m2: MatchResult)
    ensures Advancers([m1, m2]) == Advance(m1) + Advance(m2)
  {
    assert [m1, m2][..1] == [m1];
    assert [m1][..0] == [];
  }

  lemma DropPrefix<T>(a: seq<T>, b: seq<T>)
    ensures (a + b)[|a|..] == b
  {
  }

  lemma TakeSnoc<T>(s: seq<T>, i: nat)
    requires i < |s|
    ensures s[..i + 1] == s[..i] + [s[i]]
  {
  }

  /** Every advancing team took part in the match it won. */
  lemma {:induction false} AdvancersPlayed(rs: seq<MatchResult>, field: seq<Id>)
    requires forall k :: 0 <= k < |rs| && rs[k].winner.Some? ==> rs[k].winner.value in field
    ensures forall i :: 0 <= i < |Advancers(rs)| ==> Advancers(rs)[i] in field
  {
    if rs != [] {
      var n := |rs| - 1;
      assert forall k :: 0 <= k < n ==> rs[..n][k] == rs[k];
      AdvancersPlayed(rs[..n], field);
    }
  }

  // ---------------------------------------------------------------------------
  // The play-in

  /** The playoff field and the play-in results that produced it. */
  datatype Field = Field(playIn: seq<MatchResult>, teams: seq<Id>)

  /** Every id names a team. */
  predicate AllTeams(teams: seq<Team>, ids: seq<Id>) {
    forall k :: 0 <= k < |ids| ==> ids[k] in TeamIds(teams)
  }

  lemma AdvanceTeams(teams: seq<Team>, m: MatchResult)
    requires m.winner.Some? ==> m.winner.value in TeamIds(teams)
    ensures AllTeams(teams, Advance(m))
  {
  }

  lemma AllTeamsPrefix(teams: seq<Team>, ids: seq<Id>, n: nat)
    requires AllTeams(teams, ids) && n <= |ids|
    ensures AllTeams(teams, ids[..n])
  {
  }

  lemma AllTeamsAppend(teams: seq<Team>, a: seq<Id>, b: seq<Id>)
    requires AllTeams(teams, a) && AllTeams(teams, b)
    ensures AllTeams(teams, a + b)
  {
    forall k | 0 <= k < |a + b| ensures (a + b)[k] in TeamIds(teams) {
      if k >= |a| {
        assert (a + b)[k] == b[k - |a|];
      }
    }
  }

  /** The play-in of a ten-team league: seed 7 meets seed 10 and seed 8 meets
      seed 9; the truthy winners, in that order, join the top six.  (The
      source then cuts the field to eight, which never removes a team.) */
  function PlayIn(players: seq<Player>, teams: seq<Team>, games: seq<Game>, ranked: seq<Id>,
                  draws: nat -> MatchDraw): (f: Field)
    requires AllTeams(teams, ranked) && |ranked| == 10 && |games| > 0
    ensures |f.playIn| == 2
    ensures f.playIn[0].a == ranked[6] && f.playIn[0].b == ranked[9]
    ensures f.playIn[1].a == ranked[7] && f.playIn[1].b == ranked[8]
    ensures f.playIn[0].winner == Winner(f.playIn[0].a, f.playIn[0].b, f.playIn[0].scoreA, f.playIn[0].scoreB)
    ensures f.playIn[1].winner == Winner(f.playIn[1].a, f.playIn[1].b, f.playIn[1].scoreA, f.playIn[1].scoreB)
    ensures 6 <= |f.teams| <= 8 && f.teams[..6] == ranked[..6]
    ensures AllTeams(teams, f.teams)
  {
    var p1 := PlayMatch(players, teams, games, ranked[6], ranked[9], draws(0));
    var p2 := PlayMatch(players, teams, games, ranked[7], ranked[8], draws(1));
    var top := ranked[..6];
    var winners := Advance(p1) + Advance(p2);
    assert AllTeams(teams, top + winners) by {
      AllTeamsPrefix(teams, ranked, 6);
      AdvanceTeams(teams, p1);
      AdvanceTeams(teams, p2);
      AllTeamsAppend(teams, Advance(p1), Advance(p2));
      AllTeamsAppend(teams, top, winners);
    }
    assert (top + winners)[..6] == top;
    Field([p1, p2], top + winners)
  }

  /** The teams after the top six are the play-in results filtered to their
      truthy winners, in order. */
  lemma PlayInWinners(players: seq<Player>, teams: seq<Team>, games: seq<Game>, ranked: seq<Id>,
                      draws: nat -> MatchDraw)
    requires AllTeams(teams, ranked) && |ranked| == 10 && |games| > 0
    ensures var f := PlayIn(players, teams, games, ranked, draws);
      f.teams[6..] == Advancers(f.playIn)
  {
    var f := PlayIn(players, teams, games, ranked, draws);
    AdvancersPair(f.playIn[0], f.playIn[1]);
    DropPrefix(ranked[..6], Advance(f.playIn[0]) + Advance(f.playIn[1]));
  }

  /** The teams that join the top six through the play-in are among seeds 7 to 10. */
  lemma PlayInEntrants(players: seq<Player>, teams: seq<Team>, games: seq<Game>, ranked: seq<Id>,
                       draws: nat -> MatchDraw)
    requires AllTeams(teams, ranked) && |ranked| == 10 && |games| > 0
    ensures var f := PlayIn(players, teams, games, ranked, draws);
      forall id :: id in f.teams[6..] ==> Truthy(id) && id in ranked[6..]
  {
    var f := PlayIn(players, teams, games, ranked, draws);
    PlayInWinners(players, teams, games, ranked, draws);
    FieldEntrants(f, ranked);
  }

  lemma FieldEntrants(f: Field, ranked: seq<Id>)
    requires |ranked| == 10 && |f.playIn| == 2 && 6 <= |f.teams|
    requires f.playIn[0].a == ranked[6] && f.playIn[0].b == ranked[9]
    requires f.playIn[1].a == ranked[7] && f.playIn[1].b == ranked[8]
    requires f.playIn[0].winner == Winner(f.playIn[0].a, f.playIn[0].b, f.playIn[0].scoreA, f.playIn[0].scoreB)
    requires f.playIn[1].winner == Winner(f.playIn[1].a, f.playIn[1].b, f.playIn[1].scoreA, f.playIn[1].scoreB)
    requires f.teams[6..] == Advancers(f.playIn)
    ensures forall id :: id in f.teams[6..] ==> Truthy(id) && id in ranked[6..]
  {
    var m1, m2 := f.playIn[0], f.playIn[1];
    assert f.playIn == [m1, m2];
    AdvancersPair(m1, m2);
    EntrantsFrom(m1, m2, ranked[6..], f.teams[6..]);
  }

  lemma EntrantsFrom(m1: MatchResult, m2: MatchResult, seeds: seq<Id>, entrants: seq<Id>)
    requires |seeds| == 4
    requires m1.a == seeds[0] && m1.b == seeds[3] && m1.winner == Winner(m1.a, m1.b, m1.scoreA, m1.scoreB)
    requires m2.a == seeds[1] && m2.b == seeds[2] && m2.winner == Winner(m2.a, m2.b, m2.scoreA, m2.scoreB)
    requires entrants == Advance(m1) + Advance(m2)
    ensures forall id :: id in entrants ==> Truthy(id) && id in seeds
  {
  }

  /** The playoff field: the play-in when exactly four teams rank below the
      top six, otherwise the top eight with no play-in. */
  function PlayoffField(players: seq<Player>, teams: seq<Team>, games: seq<Game>, ranked: seq<Id>,
                        draws: nat -> MatchDraw): (f: Field)
    requires |ranked| == 10 ==> AllTeams(teams, ranked) && |games| > 0
    requires |ranked| != 10 && |ranked| > 1 ==> AllTeams(teams, ranked[..Min(8, |ranked|)])
    ensures |f.teams| <= 8
    ensures |f.teams| > 1 ==> AllTeams(teams, f.teams)
    ensures AllTeams(teams, ranked) ==> AllTeams(teams, f.teams)
    ensures |ranked| == 10 ==> f == PlayIn(players, teams, games, ranked, draws)
    ensures |ranked| != 10 ==> f.playIn == [] && f.teams == ranked[..Min(8, |ranked|)]
  {
    if |ranked[Min(6, |ranked|)..]| == 4 then
      PlayIn(players, teams, games, ranked, draws)
    else
      Field([], ranked[..Min(8, |ranked|)])
  }

  // ---------------------------------------------------------------------------
  // The bracket

  /** Match `i` of a bracket round: position `i` meets position `n - 1 - i`. */
  function RoundMatch(players: seq<Player>, teams: seq<Team>, games: seq<Game>, field: seq<Id>, i: nat,
                      draw: MatchDraw): (m: MatchResult)
    requires AllTeams(teams, field) && 2 * i < |field| && |games| > 0
    ensures m.a == field[i] && m.b == field[|field| - 1 - i]
    ensures m.winner == Winner(m.a, m.b, m.scoreA, m.scoreB)
  {
    PlayMatch(players, teams, games, field[i], field[|field| - 1 - i], draw)
  }

  /** One bracket round: match `i` is played for every `i < n / 2` (a real
      division), so with an odd field the middle team meets itself. */
  function BracketRound(players: seq<Player>, teams: seq<Team>, games: seq<Game>, field: seq<Id>,
                        draws: nat -> MatchDraw): (rs: seq<MatchResult>)
    requires AllTeams(teams, field) && |field| > 1 && |games| > 0
    ensures |rs| == (|field| + 1) / 2
    ensures forall i {:trigger rs[i]} :: 0 <= i < |rs| ==> rs[i] == RoundMatch(players, teams, games, field, i, draws(i))
  {
    var n := (|field| + 1) / 2;
    assert |field| <= 2 * n <= |field| + 1;
    var rs := seq(n, i requires 0 <= i < n => RoundMatch(players, teams, games, field, i, draws(i)));
    assert forall i :: 0 <= i < n ==> rs[i] == RoundMatch(players, teams, games, field, i, draws(i));
    rs
  }

  /** Each team of the field plays exactly the matches of its position. */
  lemma BracketRoundPairs(players: seq<Player>, teams: seq<Team>, games: seq<Game>, field: seq<Id>,
                          draws: nat -> MatchDraw)
    requires AllTeams(teams, field) && |field| > 1 && |games| > 0
    ensures var rs := BracketRound(players, teams, games, field, draws);
      |rs| == (|field| + 1) / 2 &&
      (forall i {:trigger rs[i]} :: 0 <= i < |rs| ==> rs[i].a == field[i] && rs[i].b == field[|field| - 1 - i]) &&
      (forall i :: 0 <= i < |rs| ==> rs[i].winner == Winner(rs[i].a, rs[i].b, rs[i].scoreA, rs[i].scoreB))
  {
    var rs := BracketRound(players, teams, games, field, draws);
    forall i | 0 <= i < |rs|
      ensures rs[i].a == field[i] && rs[i].b == field[|field| - 1 - i]
      ensures rs[i].winner == Winner(rs[i].a, rs[i].b, rs[i].scoreA, rs[i].scoreB)
    {
      assert rs[i] == RoundMatch(players, teams, games, field, i, draws(i));
    }
  }

  /** With an odd number of teams the middle seed is paired with itself. */
  lemma MiddleSeedMeetsItself(players: seq<Player>, teams: seq<Team>, games: seq<Game>, field: seq<Id>,
                              draws: nat -> MatchDraw)
    requires AllTeams(teams, field) && |field| > 1 && |games| > 0
    requires |field| % 2 == 1
    ensures var rs := BracketRound(players, teams, games, field, draws);
      rs[|field| / 2].a == rs[|field| / 2].b == field[|field| / 2]
  {
    BracketRoundPairs(players, teams, games, field, draws);
  }

  /** The rounds played and the champion. */
  datatype Bracket = Bracket(rounds: seq<seq<MatchResult>>, champion: Option<Id>)

  /** `runPlayoffs` from round `r` on: rounds are played while more than one
      team remains; the champion is the remaining team, or null when none
      remains (or its id is empty). */
  function RunBracket(players: seq<Player>, teams: seq<Team>, games: seq<Game>, field: seq<Id>, r: nat,
                      draws: nat -> nat -> MatchDraw): (b: Bracket)
    requires |field| > 1 ==> AllTeams(teams, field) && |games| > 0
    ensures b.champion.Some? ==> Truthy(b.champion.value) && b.champion.value in field
    ensures |field| <= 1 ==> b.rounds == []
    ensures |field| == 1 ==> b.champion == (if Truthy(field[0]) then Some(field[0]) else None)
    ensures |field| == 0 ==> b.champion.None?
    decreases |field|
  {
    if |field| <= 1 then
      Bracket([], if |field| == 1 && Truthy(field[0]) then Some(field[0]) else None)
    else
      var rs := BracketRound(players, teams, games, field, draws(r));
      BracketRoundPairs(players, teams, games, field, draws(r));
      var next := Advancers(rs);
      AdvancersPlayed(rs, field);
      var rest := RunBracket(players, teams, games, next, r + 1, draws);
      Bracket([rs] + rest.rounds, rest.champion)
  }

  /** The survivors of a round are teams of the field, and fewer of them. */
  lemma RoundSurvivors(players: seq<Player>, teams: seq<Team>, games: seq<Game>, field: seq<Id>,
                       draws: nat -> MatchDraw)
    requires AllTeams(teams, field) && |field| > 1 && |games| > 0
    ensures var next := Advancers(BracketRound(players, teams, games, field, draws));
      AllTeams(teams, next) && |next| <= (|field| + 1) / 2 < |field| &&
      forall i :: 0 <= i < |next| ==> next[i] in field
  {
    var rs := BracketRound(players, teams, games, field, draws);
    BracketRoundPairs(players, teams, games, field, draws);
    AdvancersPlayed(rs, field);
  }

  /** One step of the bracket: a round, then the bracket of its survivors. */
  lemma RunBracketStep(players: seq<Player>, teams: seq<Team>, games: seq<Game>, field: seq<Id>, r: nat,
                       draws: nat -> nat -> MatchDraw)
    requires AllTeams(teams, field) && |field| > 1 && |games| > 0
    ensures var rs := BracketRound(players, teams, games, field, draws(r));
      AllTeams(teams, Advancers(rs)) &&
      RunBracket(players, teams, games, field, r, draws).rounds ==
        [rs] + RunBracket(players, teams, games, Advancers(rs), r + 1, draws).rounds &&
      RunBracket(players, teams, games, field, r, draws).champion ==
        RunBracket(players, teams, games, Advancers(rs), r + 1, draws).champion
  {
    RoundSurvivors(players, teams, games, field, draws(r));
  }

  function Pow2(k: nat): (p: nat)
    ensures p >= 1
  {
    if k == 0 then 1 else 2 * Pow2(k - 1)
  }

  /** Half of at most `2^k`, rounded up, is at most `2^(k-1)`. */
  lemma HalfBound(n: nat, k: nat)
    requires 1 < n <= Pow2(k)
    ensures k >= 1 && (n + 1) / 2 <= Pow2(k - 1)
  {
    var half := (n + 1) / 2;
    assert n <= 2 * half <= n + 1;
    assert k >= 1;
  }

  /** Each round keeps at most half the field, rounded up, so a field of at
      most `2^k` teams is decided in at most `k` rounds. */
  lemma {:induction false} BracketRounds(players: seq<Player>, teams: seq<Team>, games: seq<Game>, field: seq<Id>, r: nat,
                                         draws: nat -> nat -> MatchDraw, k: nat)
    requires AllTeams(teams, field) && (|field| > 1 ==> |games| > 0)
    requires |field| <= Pow2(k)
    ensures |RunBracket(players, teams, games, field, r, draws).rounds| <= k
    decreases |field|
  {
    if |field| > 1 {
      var next := Advancers(BracketRound(players, teams, games, field, draws(r)));
      SurvivorsFit(players, teams, games, field, draws(r), k);
      BracketRounds(players, teams, games, next, r + 1, draws, k - 1);
      RoundsStep(players, teams, games, field, r, draws);
    }
  }

  /** The survivors of a field of at most `2^k` teams number at most `2^(k-1)`. */
  lemma SurvivorsFit(players: seq<Player>, teams: seq<Team>, games: seq<Game>, field: seq<Id>,
                     draws: nat -> MatchDraw, k: nat)
    requires AllTeams(teams, field) && 1 < |field| <= Pow2(k) && |games| > 0
    ensures var next := Advancers(BracketRound(players, teams, games, field, draws));
      k >= 1 && AllTeams(teams, next) && |next| < |field| && |next| <= Pow2(k - 1)
  {
    HalfBound(|field|, k);
    RoundSurvivors(players, teams, games, field, draws);
  }

  /** A bracket of more than one team has one round more than the bracket of its survivors. */
  lemma RoundsStep(players: seq<Player>, teams: seq<Team>, games: seq<Game>, field: seq<Id>, r: nat,
                   draws: nat -> nat -> MatchDraw)
    requires AllTeams(teams, field) && |field| > 1 && |games| > 0
    ensures var next := Advancers(BracketRound(players, teams, games, field, draws(r)));
      AllTeams(teams, next) &&
      |RunBracket(players, teams, games, field, r, draws).rounds| ==
        1 + |RunBracket(players, teams, games, next, r + 1, draws).rounds|
  {
    RunBracketStep(players, teams, games, field, r, draws);
  }

  /** Every match of the round produced a winner that goes on. */
  predicate AllWon(rs: seq<MatchResult>) {
    forall j :: 0 <= j < |rs| ==> rs[j].winner.Some? && Truthy(rs[j].winner.value)
  }

  /** Every match of every round produced a winner that goes on. */
  predicate Decisive(rounds: seq<seq<MatchResult>>) {
    rounds == [] || (AllWon(rounds[0]) && Decisive(rounds[1..]))
  }

  /** When every result has a winner that goes on, all of them go on. */
  lemma {:induction false} AllAdvance(rs: seq<MatchResult>)
    requires AllWon(rs)
    ensures |Advancers(rs)| == |rs|
  {
    if rs != [] {
      var n := |rs| - 1;
      assert forall j :: 0 <= j < n ==> rs[..n][j] == rs[j];
      AllAdvance(rs[..n]);
    }
  }

  /** A field of `2^k` teams whose bracket has a winner going on from every match. */
  predicate DecisiveField(players: seq<Player>, teams: seq<Team>, games: seq<Game>, field: seq<Id>, r: nat,
                          draws: nat -> nat -> MatchDraw, k: nat)
  {
    && AllTeams(teams, field) && |field| == Pow2(k) && (k >= 1 ==> |games| > 0)
    && Decisive(RunBracket(players, teams, games, field, r, draws).rounds)
  }

  /** The bracket of the field takes `k` rounds and, when a match is played, crowns a champion. */
  predicate DecidedIn(players: seq<Player>, teams: seq<Team>, games: seq<Game>, field: seq<Id>, r: nat,
                      draws: nat -> nat -> MatchDraw, k: nat)
    requires AllTeams(teams, field) && (|field| > 1 ==> |games| > 0)
  {
    && |RunBracket(players, teams, games, field, r, draws).rounds| == k
    && (k >= 1 ==> RunBracket(players, teams, games, field, r, draws).champion.Some?)
  }

  /** Without ties, a field of `2^k` teams is decided in exactly `k` rounds
      (three for the eight-team field) and, when a match is played, crowns a
      champion. */
  lemma {:induction false} DecisiveRounds(players: seq<Player>, teams: seq<Team>, games: seq<Game>, field: seq<Id>, r: nat,
                                          draws: nat -> nat -> MatchDraw, k: nat)
    requires DecisiveField(players, teams, games, field, r, draws, k)
    ensures DecidedIn(players, teams, games, field, r, draws, k)
    decreases k, 1
  {
    if |field| > 1 {
      DecisiveRoundsFrom(players, teams, games, field, r, draws, k);
    } else {
      SingleTeam(players, teams, games, field, r, draws, k);
    }
  }

  /** The inductive step of `DecisiveRounds`: play one decisive round, then the rest. */
  lemma {:induction false} DecisiveRoundsFrom(players: seq<Player>, teams: seq<Team>, games: seq<Game>, field: seq<Id>, r: nat,
                                              draws: nat -> nat -> MatchDraw, k: nat)
    requires DecisiveField(players, teams, games, field, r, draws, k) && |field| > 1
    ensures DecidedIn(players, teams, games, field, r, draws, k)
    decreases k, 0
  {
    var next := DecisiveStep(players, teams, games, field, r, draws, k);
    var r', k' := NextRound(players, teams, games, field, next, r, draws, k);
    DecisiveRounds(players, teams, games, next, r', draws, k');
  }

  /** A field of `2^k` teams with at most one team is the single team of `2^0`. */
  lemma SingleTeam(players: seq<Player>, teams: seq<Team>, games: seq<Game>, field: seq<Id>, r: nat,
                   draws: nat -> nat -> MatchDraw, k: nat)
    requires DecisiveField(players, teams, games, field, r, draws, k) && |field| <= 1
    ensures DecidedIn(players, teams, games, field, r, draws, k)
  {
  }

  /** Names the round number and exponent the survivors play on with. */
  lemma NextRound(players: seq<Player>, teams: seq<Team>, games: seq<Game>, field: seq<Id>, next: seq<Id>, r: nat,
                  draws: nat -> nat -> MatchDraw, k: nat) returns (r': nat, k': nat)
    requires AllTeams(teams, field) && (|field| > 1 ==> |games| > 0)
    requires k >= 1 && DecisiveField(players, teams, games, next, r + 1, draws, k - 1)
    requires DecidedIn(players, teams, games, next, r + 1, draws, k - 1) ==> DecidedIn(players, teams, games, field, r, draws, k)
    ensures r' == r + 1 && k' == k - 1
    ensures DecisiveField(players, teams, games, next, r', draws, k')
    ensures DecidedIn(players, teams, games, next, r', draws, k') ==> DecidedIn(players, teams, games, field, r, draws, k)
  {
    r', k' := r + 1, k - 1;
  }

  /** The eight-team field of the source: without ties, exactly three rounds
      and a champion. */
  lemma EightTeamBracket(players: seq<Player>, teams: seq<Team>, games: seq<Game>, field: seq<Id>,
                         draws: nat -> nat -> MatchDraw)
    requires AllTeams(teams, field) && |field| == 8 && |games| > 0
    requires Decisive(RunBracket(players, teams, games, field, 0, draws).rounds)
    ensures |RunBracket(players, teams, games, field, 0, draws).rounds| == 3
    ensures RunBracket(players, teams, games, field, 0, draws).champion.Some?
  {
    assert Pow2(3) == 2 * Pow2(2) == 4 * Pow2(1) == 8;
    DecisiveRounds(players, teams, games, field, 0, draws, 3);
  }

  /** A decisive round leaves a decisive field of `2^(k-1)` teams, whose
      bracket is one round shorter and crowns the same champion. */
  lemma DecisiveStep(players: seq<Player>, teams: seq<Team>, games: seq<Game>, field: seq<Id>, r: nat,
                     draws: nat -> nat -> MatchDraw, k: nat) returns (next: seq<Id>)
    requires DecisiveField(players, teams, games, field, r, draws, k) && |field| > 1
    ensures k >= 1 && DecisiveField(players, teams, games, next, r + 1, draws, k - 1)
    ensures DecidedIn(players, teams, games, next, r + 1, draws, k - 1) ==> DecidedIn(players, teams, games, field, r, draws, k)
  {
    assert k >= 1;
    var rs := BracketRound(players, teams, games, field, draws(r));
    RunBracketStep(players, teams, games, field, r, draws);
    next := Advancers(rs);
    var b := RunBracket(players, teams, games, field, r, draws);
    var rest := RunBracket(players, teams, games, next, r + 1, draws);
    assert b.rounds == [rs] + rest.rounds;
    assert |rs| == Pow2(k - 1) by {
      assert |field| == 2 * Pow2(k - 1);
    }
    assert b.rounds[0] == rs && b.rounds[1..] == rest.rounds;
    AllAdvance(rs);
  }

  /** One round of `runPlayoffs`' inner loop: the results, in order, and the
      truthy winners that go on. */
  method PlayRound(players: seq<Player>, teams: seq<Team>, games: seq<Game>, roundTeams: seq<Id>,
                   draws: nat -> MatchDraw) returns (ms: seq<MatchResult>, nextRound: seq<Id>)
    requires AllTeams(teams, roundTeams) && |roundTeams| > 1 && |games| > 0
    ensures ms == BracketRound(players, teams, games, roundTeams, draws)
    ensures nextRound == Advancers(ms)
  {
    ghost var full := BracketRound(players, teams, games, roundTeams, draws);
    assert |roundTeams| <= 2 * |full| <= |roundTeams| + 1;
    nextRound := [];
    ms := [];
    var i := 0;
    while 2 * i < |roundTeams|
      invariant 0 <= i <= |full|
      invariant ms == full[..i]
      invariant nextRound == Advancers(ms)
    {
      var res := RoundMatch(players, teams, games, roundTeams, i, draws(i));
      assert res == full[i];
      ExtendPrefix(full, ms, nextRound, i);
      ms := ms + [res];
      if res.winner.Some? && Truthy(res.winner.value) {
        nextRound := nextRound + [res.winner.value];
      }
      i := i + 1;
    }
    assert ms == full;
  }

  /** Playing the next match of a round extends the results and the survivors. */
  lemma ExtendPrefix(full: seq<MatchResult>, ms: seq<MatchResult>, nextRound: seq<Id>, i: nat)
    requires i < |full| && ms == full[..i] && nextRound == Advancers(ms)
    ensures ms + [full[i]] == full[..i + 1]
    ensures nextRound + Advance(full[i]) == Advancers(ms + [full[i]])
  {
    TakeSnoc(full, i);
    AdvancersSnoc(ms, full[i]);
  }

  /** `runPlayoffs` as written: a while loop that rebinds the remaining teams. */
  method RunPlayoffs(players: seq<Player>, teams: seq<Team>, games: seq<Game>, field: seq<Id>,
                     draws: nat -> nat -> MatchDraw) returns (b: Bracket)
    requires |field| > 1 ==> AllTeams(teams, field) && |games| > 0
    ensures b == RunBracket(players, teams, games, field, 0, draws)
  {
    ghost var whole := RunBracket(players, teams, games, field, 0, draws);
    var roundTeams := field;
    var rounds: seq<seq<MatchResult>> := [];
    var r := 0;
    while |roundTeams| > 1
      invariant |roundTeams| > 1 ==> AllTeams(teams, roundTeams) && |games| > 0
      invariant whole.rounds == rounds + RunBracket(players, teams, games, roundTeams, r, draws).rounds
      invariant whole.champion == RunBracket(players, teams, games, roundTeams, r, draws).champion
      decreases |roundTeams|
    {
      var ms, nextRound := PlayRound(players, teams, games, roundTeams, draws(r));
      assert AllTeams(teams, nextRound) && |nextRound| < |roundTeams| by {
        RoundSurvivors(players, teams, games, roundTeams, draws(r));
      }
      ghost var rest := RunBracket(players, teams, games, nextRound, r + 1, draws);
      assert RunBracket(players, teams, games, roundTeams, r, draws).rounds == [ms] + rest.rounds &&
             RunBracket(players, teams, games, roundTeams, r, draws).champion == rest.champion by {
        RunBracketStep(players, teams, games, roundTeams, r, draws);
      }
      AppendAssoc(rounds, [ms], rest.rounds);
      rounds := rounds + [ms];
      roundTeams := nextRound;
      r := r + 1;
    }
    var champion := if |roundTeams| > 0 && Truthy(roundTeams[0]) then Some(roundTeams[0]) else None;
    b := Bracket(rounds, champion);
  }

  // ---------------------------------------------------------------------------
  // Awards

  datatype Awards = Awards(mvp: Option<Id>, champion: Option<Id>)

  function SkillOf(p: Player): Rank {
    Rank(PlayerSkill(p), 0)
  }

  /** The most valuable player: first after a stable sort by base skill, best first. */
  function Mvp(players: seq<Player>): Option<Id> {
    if players == [] then None else Some(SortByRank(players, SkillOf)[0].id)
  }

  /** No players, no MVP; otherwise the MVP is the first player of greatest base skill. */
  lemma MvpIsFirstBest(players: seq<Player>)
    ensures Mvp(players).None? <==> players == []
    ensures Mvp(players).Some? ==>
      (exists k :: 0 <= k < |players| && players[k].id == Mvp(players).value &&
        (forall j :: 0 <= j < |players| ==> PlayerSkill(players[j]) <= PlayerSkill(players[k])) &&
        (forall j :: 0 <= j < k ==> PlayerSkill(players[j]) < PlayerSkill(players[k])))
  {
    if players != [] {
      SortHeadIsFirstBest(players, SkillOf);
      var k := FirstBest(players, SkillOf);
      forall j | 0 <= j < |players| ensures PlayerSkill(players[j]) <= PlayerSkill(players[k]) {
        assert !Outranks(SkillOf(players[j]), SkillOf(players[k]));
      }
      forall j | 0 <= j < k ensures PlayerSkill(players[j]) < PlayerSkill(players[k]) {
        assert Outranks(SkillOf(players[k]), SkillOf(players[j]));
      }
    }
  }

  /** `computeAwards`: the MVP and the playoffs' champion, if playoffs exist. */
  function ComputeAwards(players: seq<Player>, bracket: Option<Bracket>): (a: Awards)
    ensures a.mvp.None? <==> players == []
    ensures a.champion == if bracket.Some? then bracket.value.champion else None
  {
    MvpIsFirstBest(players);
    Awards(Mvp(players), if bracket.Some? then bracket.value.champion else None)
  }
}
