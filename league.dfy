/** The league document and the three operations on it as a whole: the draft,
    which works on a copy, and one week and the full season, which update the
    league in place. */
module League {
  import opened Base
  import opened Sorting
  import opened Shuffle
  import opened Draft
  import opened Schedule
  import opened Matches
  import opened Playoffs

  // ---------------------------------------------------------------------------
  // One week

  /** What `simulateWeek` returns besides the updated league. */
  datatype WeekOutcome = NoSuchWeek(message: string) | WeekPlayed(results: seq<MatchResult>, weekIndex: nat)

  const NoSuchWeekMessage: string := "no such week"

  /** The source throws unless every match of a week names two teams and,
      when the week has matches, a game can be drawn. */
  predicate WeekPlayable(teams: seq<Team>, games: seq<Game>, ms: seq<Match>) {
    MatchesResolve(teams, ms) && (ms != [] ==> |games| > 0)
  }

  /** The standings after a week: every team gets a row, then every result is
      recorded in match order. */
  function WeekStandings(players: seq<Player>, teams: seq<Team>, games: seq<Game>, st: Standings,
                         ms: seq<Match>, draws: nat -> MatchDraw): Standings
    requires WeekPlayable(teams, games, ms)
  {
    var base := EnsureRows(st, TeamIds(teams));
    var rs := WeekResults(players, teams, games, ms, draws);
    assert ResultsRecorded(base, rs);
    RecordAll(base, rs)
  }

  /** After a week the standings hold the old keys and every team, each key
      still exactly once. */
  lemma WeekKeys(players: seq<Player>, teams: seq<Team>, games: seq<Game>, st: Standings,
                 ms: seq<Match>, draws: nat -> MatchDraw)
    requires WeekPlayable(teams, games, ms)
    ensures forall id :: id in Keys(WeekStandings(players, teams, games, st, ms, draws)) <==>
      id in Keys(st) || id in TeamIds(teams)
    ensures UniqueKeys(st) ==> UniqueKeys(WeekStandings(players, teams, games, st, ms, draws))
  {
    var base := EnsureRows(st, TeamIds(teams));
    var rs := WeekResults(players, teams, games, ms, draws);
    assert ResultsRecorded(base, rs);
    var r := RecordAll(base, rs);
    if UniqueKeys(st) {
      forall i, j | 0 <= i < j < |r| ensures r[i].teamId != r[j].teamId {
        assert Keys(r)[i] == Keys(base)[i] && Keys(r)[j] == Keys(base)[j];
      }
    }
  }

  /** After a week each team keeps its old record (or starts from zero) plus
      exactly the credit of the week's results: a win, loss or tie per match
      it played, decided by strict comparison, and its own and the
      opponent's scores as points for and against. */
  lemma WeekRecords(players: seq<Player>, teams: seq<Team>, games: seq<Game>, st: Standings,
                    ms: seq<Match>, draws: nat -> MatchDraw, x: Id)
    requires WeekPlayable(teams, games, ms)
    requires x in Keys(st) || x in TeamIds(teams)
    ensures RecordOf(WeekStandings(players, teams, games, st, ms, draws), x) ==
      Some(Add(if x in Keys(st) then RecordOf(st, x).value else ZeroRecord,
               Credits(WeekResults(players, teams, games, ms, draws), x)))
  {
    var base := EnsureRows(st, TeamIds(teams));
    var rs := WeekResults(players, teams, games, ms, draws);
    assert ResultsRecorded(base, rs);
    EnsureRowsRecord(st, TeamIds(teams), x);
    RecordAllCredits(base, rs, x);
  }

  /** Over a week, wins minus losses and points for minus points against are
      conserved league-wide, and every match adds two outcomes. */
  lemma WeekTotals(players: seq<Player>, teams: seq<Team>, games: seq<Game>, st: Standings,
                   ms: seq<Match>, draws: nat -> MatchDraw)
    requires WeekPlayable(teams, games, ms)
    ensures var t := Totals(st); var t' := Totals(WeekStandings(players, teams, games, st, ms, draws));
      && t'.wins - t'.losses == t.wins - t.losses
      && t'.pointsFor - t'.pointsAgainst == t.pointsFor - t.pointsAgainst
      && (t'.wins + t'.losses + t'.ties) - (t.wins + t.losses + t.ties) == 2 * |ms|
  {
    var base := EnsureRows(st, TeamIds(teams));
    var rs := WeekResults(players, teams, games, ms, draws);
    assert ResultsRecorded(base, rs);
    EnsureRowsTotals(st, TeamIds(teams));
    RecordAllTotals(base, rs);
  }

  // ---------------------------------------------------------------------------
  // The season

  /** Every week of the schedule can be played. */
  predicate Playable(teams: seq<Team>, games: seq<Game>, schedule: seq<Week>) {
    forall w :: 0 <= w < |schedule| ==> WeekPlayable(teams, games, schedule[w].matches)
  }

  /** Every key of the standings names a team. */
  predicate KeysAreTeams(st: Standings, teams: seq<Team>) {
    forall id :: id in Keys(st) ==> id in TeamIds(teams)
  }

  /** The standings once weeks `w` to the end of the schedule have been
      played from `st`; week `w` draws from `draws(w)`. */
  function SeasonStandings(players: seq<Player>, teams: seq<Team>, games: seq<Game>, schedule: seq<Week>,
                           st: Standings, draws: nat -> nat -> MatchDraw, w: nat): Standings
    requires Playable(teams, games, schedule) && w <= |schedule|
    decreases |schedule| - w
  {
    if w == |schedule| then st
    else
      var next := WeekStandings(players, teams, games, st, schedule[w].matches, draws(w));
      SeasonStandings(players, teams, games, schedule, next, draws, w + 1)
  }

  /** Playing from week `w` is playing week `w` and then the weeks after it. */
  lemma SeasonStep(players: seq<Player>, teams: seq<Team>, games: seq<Game>, schedule: seq<Week>,
                   st: Standings, draws: nat -> nat -> MatchDraw, w: nat)
    requires Playable(teams, games, schedule) && w < |schedule|
    ensures WeekPlayable(teams, games, schedule[w].matches)
    ensures SeasonStandings(players, teams, games, schedule, st, draws, w) ==
      SeasonStandings(players, teams, games, schedule,
        WeekStandings(players, teams, games, st, schedule[w].matches, draws(w)), draws, w + 1)
  {
  }

  /** The number of matches in the weeks of `schedule`. */
  function MatchCount(schedule: seq<Week>): nat {
    if schedule == [] then 0 else |schedule[0].matches| + MatchCount(schedule[1..])
  }

  /** Playing weeks `w` on keeps the old keys and, if any week is played,
      adds every team; so keys that named teams still do. */
  lemma {:induction false} SeasonKeys(players: seq<Player>, teams: seq<Team>, games: seq<Game>, schedule: seq<Week>,
                                      st: Standings, draws: nat -> nat -> MatchDraw, w: nat)
    requires Playable(teams, games, schedule) && w <= |schedule|
    ensures forall id :: id in Keys(SeasonStandings(players, teams, games, schedule, st, draws, w)) <==>
      id in Keys(st) || (w < |schedule| && id in TeamIds(teams))
    ensures UniqueKeys(st) ==> UniqueKeys(SeasonStandings(players, teams, games, schedule, st, draws, w))
    decreases |schedule| - w
  {
    if w < |schedule| {
      var next := WeekStandings(players, teams, games, st, schedule[w].matches, draws(w));
      WeekKeys(players, teams, games, st, schedule[w].matches, draws(w));
      SeasonKeys(players, teams, games, schedule, next, draws, w + 1);
    }
  }

  /** Over weeks `w` on, wins minus losses and points for minus points
      against are conserved, and the outcomes recorded grow by two per match. */
  lemma {:induction false} SeasonTotals(players: seq<Player>, teams: seq<Team>, games: seq<Game>, schedule: seq<Week>,
                                        st: Standings, draws: nat -> nat -> MatchDraw, w: nat)
    requires Playable(teams, games, schedule) && w <= |schedule|
    ensures var t := Totals(st); var t' := Totals(SeasonStandings(players, teams, games, schedule, st, draws, w));
      && t'.wins - t'.losses == t.wins - t.losses
      && t'.pointsFor - t'.pointsAgainst == t.pointsFor - t.pointsAgainst
      && (t'.wins + t'.losses + t'.ties) - (t.wins + t.losses + t.ties) == 2 * MatchCount(schedule[w..])
    decreases |schedule| - w
  {
    if w < |schedule| {
      var next := WeekStandings(players, teams, games, st, schedule[w].matches, draws(w));
      WeekTotals(players, teams, games, st, schedule[w].matches, draws(w));
      SeasonTotals(players, teams, games, schedule, next, draws, w + 1);
      assert schedule[w..][1..] == schedule[w + 1..];
    }
  }

  /** What `runFullSeason` stores under `playoffs`. */
  datatype PlayoffRecord = PlayoffRecord(playInResults: seq<MatchResult>, playoffResults: Bracket)

  /** Everything a full season produces. */
  datatype SeasonEnd = SeasonEnd(standings: Standings, ranked: seq<Seed>, playoffs: PlayoffRecord, awards: Awards)

  /** `runFullSeason`: every week in order, the ranking, the play-in or the
      top-eight field, the bracket and the awards. */
  function Season(players: seq<Player>, teams: seq<Team>, games: seq<Game>, schedule: seq<Week>, st: Standings,
                  weekDraws: nat -> nat -> MatchDraw, playInDraws: nat -> MatchDraw,
                  bracketDraws: nat -> nat -> MatchDraw): SeasonEnd
    requires Playable(teams, games, schedule) && KeysAreTeams(st, teams) && |games| > 0
  {
    var final := SeasonStandings(players, teams, games, schedule, st, weekDraws, 0);
    var ranked := Ranked(final);
    assert AllTeams(teams, SeedIds(ranked)) by {
      SeasonKeys(players, teams, games, schedule, st, weekDraws, 0);
      RankedIdsAreKeys(final);
    }
    AllTeamsPrefix(teams, SeedIds(ranked), Min(8, |SeedIds(ranked)|));
    var f := PlayoffField(players, teams, games, SeedIds(ranked), playInDraws);
    var bracket := RunBracket(players, teams, games, f.teams, 0, bracketDraws);
    SeasonEnd(final, ranked, PlayoffRecord(f.playIn, bracket), ComputeAwards(players, Some(bracket)))
  }

  /** `Season` in terms of its final standings and its playoff field. */
  lemma SeasonUnfold(players: seq<Player>, teams: seq<Team>, games: seq<Game>, schedule: seq<Week>, st: Standings,
                     weekDraws: nat -> nat -> MatchDraw, playInDraws: nat -> MatchDraw,
                     bracketDraws: nat -> nat -> MatchDraw, final: Standings, f: Field)
    requires Playable(teams, games, schedule) && KeysAreTeams(st, teams) && |games| > 0
    requires final == SeasonStandings(players, teams, games, schedule, st, weekDraws, 0)
    requires AllTeams(teams, SeedIds(Ranked(final)))
    requires f == PlayoffField(players, teams, games, SeedIds(Ranked(final)), playInDraws)
    ensures var bracket := RunBracket(players, teams, games, f.teams, 0, bracketDraws);
      Season(players, teams, games, schedule, st, weekDraws, playInDraws, bracketDraws) ==
        SeasonEnd(final, Ranked(final), PlayoffRecord(f.playIn, bracket), ComputeAwards(players, Some(bracket)))
  {
  }

  /** The end of a season: the ranking orders the final standings by wins and
      then points for; with exactly ten ranked teams seeds 7 to 10 play in and
      the champion comes from the top six or the play-in winners, otherwise
      from the top eight; the bracket has at most three rounds; the awards
      name the champion and, when there are players, an MVP. */
  lemma SeasonOutcome(players: seq<Player>, teams: seq<Team>, games: seq<Game>, schedule: seq<Week>, st: Standings,
                      weekDraws: nat -> nat -> MatchDraw, playInDraws: nat -> MatchDraw,
                      bracketDraws: nat -> nat -> MatchDraw)
    requires Playable(teams, games, schedule) && KeysAreTeams(st, teams) && |games| > 0
    ensures var e := Season(players, teams, games, schedule, st, weekDraws, playInDraws, bracketDraws);
      var ids := SeedIds(e.ranked);
      var champion := e.playoffs.playoffResults.champion;
      && e.ranked == Ranked(e.standings)
      && |e.playoffs.playoffResults.rounds| <= 3
      && (|ids| == 10 <==> |e.playoffs.playInResults| == 2)
      && (|ids| != 10 ==> e.playoffs.playInResults == [])
      && (champion.Some? ==> Truthy(champion.value) && champion.value in TeamIds(teams))
      && (champion.Some? && |ids| == 10 ==> champion.value in ids[..6] || champion.value in Advancers(e.playoffs.playInResults))
      && (champion.Some? && |ids| != 10 ==> champion.value in ids[..Min(8, |ids|)])
      && e.awards.champion == champion
      && (e.awards.mvp.None? <==> players == [])
  {
    var final := SeasonStandings(players, teams, games, schedule, st, weekDraws, 0);
    var ranked := Ranked(final);
    var ids := SeedIds(ranked);
    assert AllTeams(teams, ids) by {
      SeasonKeys(players, teams, games, schedule, st, weekDraws, 0);
      RankedIdsAreKeys(final);
    }
    AllTeamsPrefix(teams, ids, Min(8, |ids|));
    var f := PlayoffField(players, teams, games, ids, playInDraws);
    var bracket := RunBracket(players, teams, games, f.teams, 0, bracketDraws);
    assert |bracket.rounds| <= 3 by {
      assert Pow2(3) == 8;
      BracketRounds(players, teams, games, f.teams, 0, bracketDraws, 3);
    }
    if bracket.champion.Some? && |ids| == 10 {
      var c := bracket.champion.value;
      PlayInWinners(players, teams, games, ids, playInDraws);
      assert f.teams == f.teams[..6] + f.teams[6..];
      assert c in f.teams[..6] || c in f.teams[6..];
    }
  }

  // ---------------------------------------------------------------------------
  // The league document

  class League {
    var players: seq<Player>
    var teams: seq<Team>
    var games: seq<Game>
    var draft: DraftState
    var schedule: seq<Week>
    var standings: Standings
    var playoffs: Option<PlayoffRecord>
    var awards: Option<Awards>

    constructor (players: seq<Player>, teams: seq<Team>, games: seq<Game>, draft: DraftState, schedule: seq<Week>,
                 standings: Standings, playoffs: Option<PlayoffRecord>, awards: Option<Awards>)
      ensures this.players == players && this.teams == teams && this.games == games && this.draft == draft
      ensures this.schedule == schedule && this.standings == standings
      ensures this.playoffs == playoffs && this.awards == awards
    {
      this.players := players;
      this.teams := teams;
      this.games := games;
      this.draft := draft;
      this.schedule := schedule;
      this.standings := standings;
      this.playoffs := playoffs;
      this.awards := awards;
    }

    /** One round of the draft over `order`, each turn numbered by the picks
        made so far in this run; the picks are appended to `log`. */
    method DraftRound(order: seq<Id>, round: Round, userTeamId: Option<Id>, draws: nat -> PickDraw, log: seq<Pick>)
      returns (picks: seq<Pick>)
      requires Resolves(teams, order)
      modifies this`players, this`teams
      ensures Progress(players, teams, picks) == RunOrder(Progress(old(players), old(teams), log), order, round, userTeamId, draws)
    {
      ghost var start := Progress(players, teams, log);
      picks := log;
      var i := 0;
      while i < |order|
        invariant 0 <= i <= |order|
        invariant Resolves(start.teams, order[..i])
        invariant Progress(players, teams, picks) == RunOrder(start, order[..i], round, userTeamId, draws)
        invariant TeamIds(teams) == TeamIds(start.teams)
      {
        var tid := order[i];
        picks := DraftTurn(tid, round, userTeamId, draws, picks);
        RunOrderSnoc(start, order[..i], tid, round, userTeamId, draws);
        TakeSnoc(order, i);
        i := i + 1;
      }
      assert order[..|order|] == order;
    }

    /** One turn: team `tid` takes its candidate, if there is one, which is
        marked as the team's and appended to its roster; the pick or the
        missing pick is logged. */
    method DraftTurn(tid: Id, round: Round, userTeamId: Option<Id>, draws: nat -> PickDraw, log: seq<Pick>)
      returns (picks: seq<Pick>)
      requires tid in TeamIds(teams)
      modifies this`players, this`teams
      ensures Progress(players, teams, picks) == DraftStep(Progress(old(players), old(teams), log), tid, round, userTeamId, draws)
    {
      var ti := TeamIndex(teams, tid).value;
      var team := teams[ti];
      var candidate := AiOrUserPick(players, team, round.allowedTiers, userTeamId == Some(tid), draws(|log|));
      if candidate.None? {
        picks := log + [Pick(tid, None, Some(NoCandidateReason), round.num)];
      } else {
        var p := players[candidate.value];
        players := players[candidate.value := p.(teamId := Some(team.id))];
        teams := teams[ti := team.(roster := team.roster + [p.id])];
        picks := log + [Pick(tid, Some(p.id), None, round.num)];
      }
    }

    /** `runFullDraft`: the draft runs on a fresh copy of the league, which is
        returned with this run's picks; this league is not changed. The rounds
        mutate a working copy, and the returned league is assembled from it
        together with the order used and the extended pick log. */
    method RunFullDraft(userTeamId: Option<Id>, shuffleDraws: nat -> Unit, pickDraws: nat -> PickDraw)
      returns (state: League, picks: seq<Pick>)
      requires Resolves(teams, draft.order)
      ensures fresh(state)
      ensures var d := Draft.Draft(players, teams, draft, userTeamId, shuffleDraws, pickDraws);
        && state.players == d.players && state.teams == d.teams && state.draft == d.draft && picks == d.picks
      ensures state.games == games && state.schedule == schedule && state.standings == standings
      ensures state.playoffs == playoffs && state.awards == awards
    {
      OrdersResolve(players, teams, draft, shuffleDraws);
      ghost var o12 := OrderOneTwo(teams, draft, shuffleDraws);
      ghost var s1 := RunOrder(Progress(players, teams, []), o12, RoundOne, userTeamId, pickDraws);
      ghost var s2 := RunOrder(s1, o12, RoundTwo, userTeamId, pickDraws);
      ghost var s3 := RunOrder(s2, EntryIds(RoundThreeEntries(players, teams)), RoundThree, userTeamId, pickDraws);
      var order12 := DraftOrder(shuffleDraws);
      var work := new League(players, teams, games, draft, schedule, standings, playoffs, awards);
      var order3 := EntryIds(RoundThreeEntries(work.players, work.teams));
      picks := work.DraftRound(order12, RoundOne, userTeamId, pickDraws, []);
      assert Progress(work.players, work.teams, picks) == s1;
      picks := work.DraftRound(order12, RoundTwo, userTeamId, pickDraws, picks);
      assert Progress(work.players, work.teams, picks) == s2;
      picks := work.DraftRound(order3, RoundThree, userTeamId, pickDraws, picks);
      assert Progress(work.players, work.teams, picks) == s3;
      state := new League(work.players, work.teams, games, DraftState(order12, draft.picks + picks),
        schedule, standings, playoffs, awards);
    }

    /** The order of rounds one and two: a copy of the stored order when it
        is not empty, otherwise the team ids shuffled in place. */
    method DraftOrder(shuffleDraws: nat -> Unit) returns (order: seq<Id>)
      ensures order == OrderOneTwo(teams, draft, shuffleDraws)
    {
      if |draft.order| > 0 {
        order := draft.order;
      } else {
        var ids := new Id[|teams|](k requires 0 <= k < |teams| reads this => teams[k].id);
        assert ids[..] == TeamIds(teams);
        var shuffled := ShuffleArray(ids, shuffleDraws);
        order := shuffled[..];
      }
    }

    /** `simulateWeek`: an index outside the schedule is an error that changes
        nothing; otherwise every team gets a standings row and the week's
        matches are played and recorded in order, match `k` drawing `draws(k)`. */
    method SimulateWeek(weekIndex: int, draws: nat -> MatchDraw) returns (r: WeekOutcome)
      requires 0 <= weekIndex < |schedule| ==> WeekPlayable(teams, games, schedule[weekIndex].matches)
      modifies this`standings
      ensures r.NoSuchWeek? <==> !(0 <= weekIndex < |schedule|)
      ensures r.NoSuchWeek? ==> r.message == NoSuchWeekMessage && standings == old(standings)
      ensures r.WeekPlayed? ==> r.weekIndex == weekIndex
      ensures r.WeekPlayed? ==> r.results == WeekResults(players, teams, games, schedule[weekIndex].matches, draws)
      ensures r.WeekPlayed? ==>
        standings == WeekStandings(players, teams, games, old(standings), schedule[weekIndex].matches, draws)
    {
      if !(0 <= weekIndex < |schedule|) {
        return NoSuchWeek(NoSuchWeekMessage);
      }
      var ms := schedule[weekIndex].matches;
      EnsureTeamRows();
      var results := PlayMatches(ms, draws);
      return WeekPlayed(results, weekIndex);
    }

    /** `standings[t.id] = standings[t.id] || zero` for every team, in team order. */
    method EnsureTeamRows()
      modifies this`standings
      ensures standings == EnsureRows(old(standings), TeamIds(teams))
    {
      ghost var ids := TeamIds(teams);
      var i := 0;
      while i < |teams|
        invariant 0 <= i <= |teams|
        invariant standings == EnsureRows(old(standings), ids[..i])
      {
        EnsureRowsSnoc(old(standings), ids[..i], teams[i].id);
        if teams[i].id !in Keys(standings) {
          standings := standings + [Matches.Row(teams[i].id, ZeroRecord)];
        }
        TakeSnoc(ids, i);
        i := i + 1;
      }
      assert ids[..|teams|] == ids;
    }

    /** The week's match loop: draw a game, score both teams, record the
        outcome and the points, and collect the result. */
    method PlayMatches(ms: seq<Match>, draws: nat -> MatchDraw) returns (results: seq<MatchResult>)
      requires WeekPlayable(teams, games, ms)
      requires forall id :: id in TeamIds(teams) ==> id in Keys(standings)
      modifies this`standings
      ensures results == WeekResults(players, teams, games, ms, draws)
      ensures ResultsRecorded(old(standings), results)
      ensures standings == RecordAll(old(standings), results)
    {
      ghost var base := standings;
      ghost var all := WeekResults(players, teams, games, ms, draws);
      assert ResultsRecorded(base, all);
      results := [];
      var k := 0;
      while k < |ms|
        invariant 0 <= k <= |ms|
        invariant results == all[..k]
        invariant ResultsRecorded(base, results)
        invariant standings == RecordAll(base, results)
      {
        var g := DrawGame(games, draws(k).game);
        var a, b := ms[k].a, ms[k].b;
        var sa := TeamScoreFromGame(teams[TeamIndex(teams, a).value], players, g, draws(k).scoreA);
        var sb := TeamScoreFromGame(teams[TeamIndex(teams, b).value], players, g, draws(k).scoreB);
        var m := MatchResult(a, b, g.id, sa, sb, Winner(a, b, sa, sb));
        assert m == all[k] && a in Keys(base) && b in Keys(base);
        standings := RecordMatch(standings, a, b, sa, sb);
        ResultsRecordedSnoc(base, results, m);
        TakeSnoc(all, k);
        results := results + [m];
        k := k + 1;
      }
      assert all[..|ms|] == all;
    }

    /** `runFullSeason`: every week of the schedule in order, then the
        ranking, the play-in or top-eight field, the bracket and the awards,
        all stored on the league. */
    method RunFullSeason(weekDraws: nat -> nat -> MatchDraw, playInDraws: nat -> MatchDraw,
                         bracketDraws: nat -> nat -> MatchDraw)
      returns (ranked: seq<Seed>, seasonAwards: Awards)
      requires Playable(teams, games, schedule) && KeysAreTeams(standings, teams) && |games| > 0
      modifies this`standings, this`playoffs, this`awards
      ensures var e := Season(players, teams, games, schedule, old(standings), weekDraws, playInDraws, bracketDraws);
        && standings == e.standings && ranked == e.ranked
        && playoffs == Some(e.playoffs) && awards == Some(e.awards) && seasonAwards == e.awards
    {
      ghost var st0 := standings;
      PlaySchedule(weekDraws);
      ranked := Ranked(standings);
      var ids := SeedIds(ranked);
      assert AllTeams(teams, ids) by {
        SeasonKeys(players, teams, games, schedule, st0, weekDraws, 0);
        RankedIdsAreKeys(standings);
      }
      AllTeamsPrefix(teams, ids, Min(8, |ids|));
      var f := PlayoffField(players, teams, games, ids, playInDraws);
      var bracket := RunPlayoffs(players, teams, games, f.teams, bracketDraws);
      playoffs := Some(PlayoffRecord(f.playIn, bracket));
      seasonAwards := ComputeAwards(players, Some(bracket));
      awards := Some(seasonAwards);
      SeasonUnfold(players, teams, games, schedule, st0, weekDraws, playInDraws, bracketDraws, standings, f);
    }

    /** The week loop of `runFullSeason`: week `w` is simulated with `draws(w)`. */
    method PlaySchedule(draws: nat -> nat -> MatchDraw)
      requires Playable(teams, games, schedule)
      modifies this`standings
      ensures standings == SeasonStandings(players, teams, games, schedule, old(standings), draws, 0)
    {
      ghost var final := SeasonStandings(players, teams, games, schedule, standings, draws, 0);
      var wi := 0;
      while wi < |schedule|
        invariant 0 <= wi <= |schedule|
        invariant final == SeasonStandings(players, teams, games, schedule, standings, draws, wi)
      {
        SeasonStep(players, teams, games, schedule, standings, draws, wi);
        PlayWeek(wi, draws(wi));
        wi := wi + 1;
      }
    }

    /** One iteration of the week loop: `simulateWeek` on a week that exists. */
    method PlayWeek(wi: nat, draws: nat -> MatchDraw)
      requires wi < |schedule| && WeekPlayable(teams, games, schedule[wi].matches)
      modifies this`standings
      ensures standings == WeekStandings(players, teams, games, old(standings), schedule[wi].matches, draws)
    {
      var r := SimulateWeek(wi, draws);
      assert r.WeekPlayed?;
    }
  }
}
