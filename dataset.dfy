/** The per-team counters of `build_dataset` and the dataset they make: one row per
    standings record, in standings order. Each schedule is fetched through the `fetch`
    parameter, which stands for the HTTP request. */
module Dataset {
  import opened Common
  import opened Standings
  import opened Schedule
  import opened Playoffs

  /** A standings record together with the keys `build_dataset` writes into it. */
  datatype Row = Row(
    record: TeamRecord,
    opponentsBeaten: seq<Name>,
    playoffOpponentsBeaten: seq<Name>,
    playoffBeatenCount: nat,
    playoffTeamsPlayed: nat,
    inPlayoffs: bool)

  function InSet(playoff: set<Name>): Name -> bool {
    (n: Name) => n in playoff
  }

  /** `[opp for opp in beaten if opp in playoff_teams]`: repeat wins are kept. */
  function PlayoffBeaten(beaten: seq<Name>, playoff: set<Name>): (r: seq<Name>)
    ensures forall n :: multiset(r)[n] == if n in playoff then multiset(beaten)[n] else 0
  {
    FilterMultiset(beaten, InSet(playoff));
    Filter(beaten, InSet(playoff))
  }

  /** `set(opp for opp in beaten if opp in playoff_teams)`: the distinct playoff teams beaten. */
  function DistinctPlayoffBeaten(beaten: seq<Name>, playoff: set<Name>): set<Name> {
    set n | n in beaten && n in playoff
  }

  /** `any(opp == name and opp in playoff_teams for opp in schedule)`. */
  predicate AnyBeat(schedule: seq<Name>, name: Name, playoff: set<Name>) {
    exists i :: 0 <= i < |schedule| && schedule[i] == name && schedule[i] in playoff
  }

  /** The playoff-set names of the records in `s` whose id is `id`. */
  function Matching(s: seq<TeamRecord>, id: string, playoff: set<Name>): set<Name> {
    set o | o in s && o.id == id && o.team in playoff :: o.team
  }

  /** What the cross-scan over the schedules of the ids in `ids` adds for `team`: the playoff
      teams whose beaten list holds `team`'s name, provided that name is itself in the playoff set. */
  function ScannedBy(team: TeamRecord, standings: seq<TeamRecord>, schedules: map<string, seq<Name>>,
                     playoff: set<Name>, ids: set<string>): set<Name>
  {
    set o | o in standings && o.id in ids && o.id in schedules
              && AnyBeat(schedules[o.id], team.team, playoff) && o.team in playoff :: o.team
  }

  /** The set whose size is `playoff_teams_played`. */
  function PlayedSet(team: TeamRecord, standings: seq<TeamRecord>, schedules: map<string, seq<Name>>,
                     playoff: set<Name>): set<Name>
    requires team.id in schedules
  {
    DistinctPlayoffBeaten(schedules[team.id], playoff) + ScannedBy(team, standings, schedules, playoff, schedules.Keys)
  }

  /** Which playoff teams count as played. The distinct playoff teams beaten always count.
      The playoff teams whose beaten list holds this team's name count only when the team is
      itself in the playoff set (the condition on both the name and the set membership).
      So the count lies between the number of distinct playoff teams beaten and the size of
      the playoff set. */
  lemma PlayedSetSpec(team: TeamRecord, standings: seq<TeamRecord>, schedules: map<string, seq<Name>>,
                      playoff: set<Name>)
    requires team.id in schedules
    ensures var played := PlayedSet(team, standings, schedules, playoff);
      && DistinctPlayoffBeaten(schedules[team.id], playoff) <= played <= playoff
      && |DistinctPlayoffBeaten(schedules[team.id], playoff)| <= |played| <= |playoff|
    ensures team.team !in playoff ==>
      PlayedSet(team, standings, schedules, playoff) == DistinctPlayoffBeaten(schedules[team.id], playoff)
    ensures team.team in playoff ==>
      PlayedSet(team, standings, schedules, playoff)
      == DistinctPlayoffBeaten(schedules[team.id], playoff)
         + (set o | o in standings && o.id in schedules && team.team in schedules[o.id] && o.team in playoff :: o.team)
  {
    var distinct := DistinctPlayoffBeaten(schedules[team.id], playoff);
    var played := PlayedSet(team, standings, schedules, playoff);
    SubsetCard(distinct, played);
    SubsetCard(played, playoff);
    if team.team !in playoff {
      assert ScannedBy(team, standings, schedules, playoff, schedules.Keys) == {};
    }
  }

  /** Of a team without a conference and the sole team of "AFC", only the latter is seated. */
  lemma ExampleSeating()
    ensures var x := TeamRecord("1", Some("X"), 0, 1, 0, None);
      var p := TeamRecord("2", Some("P"), 1, 0, 1, Some("AFC"));
      x.team !in PlayoffSet([x, p]) && p.team in PlayoffSet([x, p])
  {
    var x := TeamRecord("1", Some("X"), 0, 1, 0, None);
    var p := TeamRecord("2", Some("P"), 1, 0, 1, Some("AFC"));
    var standings := [x, p];
    PlayoffSetMembership(standings, x.team);
    var inAfc := InConference(p.conference);
    assert !inAfc(x) && inAfc(p);
    assert standings[1..] == [p] && [p][1..] == [];
    assert Filter([p], inAfc) == [p] + Filter([], inAfc);
    assert ConfTeams(standings, p.conference) == [p];
    assert !Rivals(p)(p);
    assert Filter([p], Rivals(p)) == [] + Filter([], Rivals(p));
    FewRivalsIncluded(standings, p);
  }

  /** With "P" seated and "X" not, X's played set misses P although P beat X. */
  lemma LossUncountedFor(playoff: set<Name>)
    requires Some("X") !in playoff && Some("P") in playoff
    ensures var x := TeamRecord("1", Some("X"), 0, 1, 0, None);
      var p := TeamRecord("2", Some("P"), 1, 0, 1, Some("AFC"));
      var schedules := map["1" := [], "2" := [Some("X")]];
      && PlayedSet(x, [x, p], schedules, playoff) == {}
      && PlayedSetIntended(x, [x, p], schedules, playoff) == {Some("P")}
  {
    var x := TeamRecord("1", Some("X"), 0, 1, 0, None);
    var p := TeamRecord("2", Some("P"), 1, 0, 1, Some("AFC"));
    var standings := [x, p];
    var schedules := map["1" := [], "2" := [Some("X")]];
    PlayedSetSpec(x, standings, schedules, playoff);
    assert DistinctPlayoffBeaten(schedules["1"], playoff) == {};
    PlayedSetIntendedSpec(x, standings, schedules, playoff, p.team);
    forall n | n in PlayedSetIntended(x, standings, schedules, playoff) ensures n == p.team {
      PlayedSetIntendedSpec(x, standings, schedules, playoff, n);
    }
  }

  /** As written, a playoff team that beat a team outside the playoff set is not counted as
      played. Team "X" has no conference, so it is never seated; "P" is the only team of
      its conference, so it is seated. P beat X, yet X's played set is empty. */
  lemma LossToPlayoffTeamUncounted()
    ensures var x := TeamRecord("1", Some("X"), 0, 1, 0, None);
      var p := TeamRecord("2", Some("P"), 1, 0, 1, Some("AFC"));
      var schedules := map["1" := [], "2" := [Some("X")]];
      var playoff := PlayoffSet([x, p]);
      && x.team !in playoff && p.team in playoff && Some("X") in schedules[p.id]
      && PlayedSet(x, [x, p], schedules, playoff) == {}
      && PlayedSetIntended(x, [x, p], schedules, playoff) == {Some("P")}
  {
    var x := TeamRecord("1", Some("X"), 0, 1, 0, None);
    var p := TeamRecord("2", Some("P"), 1, 0, 1, Some("AFC"));
    ExampleSeating();
    LossUncountedFor(PlayoffSet([x, p]));
  }

  /** The count the comments beside the loop describe: the playoff teams this team beat or lost to. */
  function PlayedSetIntended(team: TeamRecord, standings: seq<TeamRecord>, schedules: map<string, seq<Name>>,
                             playoff: set<Name>): set<Name>
    requires team.id in schedules
  {
    DistinctPlayoffBeaten(schedules[team.id], playoff)
    + (set o | o in standings && o.id in schedules && team.team in schedules[o.id] && o.team in playoff :: o.team)
  }

  /** A name counts exactly when it is a playoff team that this team beat, or the name of a
      playoff record whose schedule shows a win over this team. The as-written set is contained
      in it, and agrees with it for teams in the playoff set. */
  lemma PlayedSetIntendedSpec(team: TeamRecord, standings: seq<TeamRecord>, schedules: map<string, seq<Name>>,
                              playoff: set<Name>, n: Name)
    requires team.id in schedules
    ensures n in PlayedSetIntended(team, standings, schedules, playoff) <==>
      n in playoff && (n in schedules[team.id]
        || exists o :: o in standings && o.id in schedules && o.team == n && team.team in schedules[o.id])
    ensures PlayedSet(team, standings, schedules, playoff) <= PlayedSetIntended(team, standings, schedules, playoff)
    ensures team.team in playoff ==>
      PlayedSet(team, standings, schedules, playoff) == PlayedSetIntended(team, standings, schedules, playoff)
  {
    PlayedSetSpec(team, standings, schedules, playoff);
  }

  /** A subset is no larger than its superset. */
  lemma SubsetCard(a: set<Name>, b: set<Name>)
    requires a <= b
    ensures |a| <= |b|
  {
    assert b == a + (b - a);
  }

  /** Scanning one more id adds that id's matching records when its schedule shows a win over the team. */
  lemma ScannedByAdd(team: TeamRecord, standings: seq<TeamRecord>, schedules: map<string, seq<Name>>,
                     playoff: set<Name>, ids: set<string>, id: string)
    requires id in schedules
    ensures ScannedBy(team, standings, schedules, playoff, ids + {id})
         == ScannedBy(team, standings, schedules, playoff, ids)
            + (if AnyBeat(schedules[id], team.team, playoff) then Matching(standings, id, playoff) else {})
  {
  }

  /** One more record of the standings extends the matching names by its own, when it matches. */
  lemma MatchingSnoc(s: seq<TeamRecord>, k: int, id: string, playoff: set<Name>)
    requires 0 <= k < |s|
    ensures Matching(s[..k + 1], id, playoff)
         == Matching(s[..k], id, playoff) + (if s[k].id == id && s[k].team in playoff then {s[k].team} else {})
  {
    assert s[..k + 1] == s[..k] + [s[k]];
  }

  /** The loops that compute `playoff_teams_played` for one team: the distinct playoff teams it
      beat, then the scan over every schedule for playoff teams that beat it. */
  method TeamsPlayed(team: TeamRecord, standings: seq<TeamRecord>, schedules: map<string, seq<Name>>,
                     playoff: set<Name>) returns (played: set<Name>)
    requires team.id in schedules
    ensures played == PlayedSet(team, standings, schedules, playoff)
  {
    var beaten := schedules[team.id];
    played := set n | n in beaten && n in playoff;
    var remaining := schedules.Keys;
    ghost var scanned: set<string> := {};
    while remaining != {}
      invariant remaining + scanned == schedules.Keys && remaining !! scanned
      invariant played == DistinctPlayoffBeaten(beaten, playoff) + ScannedBy(team, standings, schedules, playoff, scanned)
      decreases remaining
    {
      var otherId :| otherId in remaining;
      var otherSchedule := schedules[otherId];
      ghost var before := played;
      if AnyBeat(otherSchedule, team.team, playoff) {
        var k := 0;
        while k < |standings|
          invariant 0 <= k <= |standings|
          invariant played == before + Matching(standings[..k], otherId, playoff)
        {
          var otherTeam := standings[k];
          MatchingSnoc(standings, k, otherId, playoff);
          if otherTeam.id == otherId && otherTeam.team in playoff {
            played := played + {otherTeam.team};
          }
          k := k + 1;
        }
        assert standings[..k] == standings;
      }
      ScannedByAdd(team, standings, schedules, playoff, scanned, otherId);
      remaining := remaining - {otherId};
      scanned := scanned + {otherId};
    }
  }

  /** The row `build_dataset` makes for one record. */
  function RowFor(team: TeamRecord, standings: seq<TeamRecord>, schedules: map<string, seq<Name>>,
                  playoff: set<Name>): Row
    requires team.id in schedules
  {
    var beaten := schedules[team.id];
    var playoffBeaten := PlayoffBeaten(beaten, playoff);
    Row(team, beaten, playoffBeaten, |playoffBeaten|,
        |PlayedSet(team, standings, schedules, playoff)|, team.team in playoff)
  }

  /** A row keeps the record's own fields unchanged, carries the team's beaten list, counts
      every win over a playoff team (repeats included), bounds the playoff teams played, and
      is marked in the playoffs exactly when the team's name is in the playoff set. */
  lemma RowForSpec(team: TeamRecord, standings: seq<TeamRecord>, schedules: map<string, seq<Name>>,
                   playoff: set<Name>)
    requires team.id in schedules
    ensures var r := RowFor(team, standings, schedules, playoff);
      && r.record == team
      && r.opponentsBeaten == schedules[team.id]
      && (r.inPlayoffs <==> team.team in playoff)
      && r.playoffBeatenCount == |r.playoffOpponentsBeaten|
      && (forall n :: multiset(r.playoffOpponentsBeaten)[n] == if n in playoff then multiset(schedules[team.id])[n] else 0)
      && |DistinctPlayoffBeaten(schedules[team.id], playoff)| <= r.playoffTeamsPlayed <= |playoff|
  {
    PlayedSetSpec(team, standings, schedules, playoff);
  }

  /** Every record's id has a schedule. */
  ghost predicate Covers(standings: seq<TeamRecord>, schedules: map<string, seq<Name>>) {
    forall i :: 0 <= i < |standings| ==> standings[i].id in schedules
  }

  /** The dataset: one row per record, in standings order. */
  function Rows(standings: seq<TeamRecord>, schedules: map<string, seq<Name>>, playoff: set<Name>): seq<Row>
    requires Covers(standings, schedules)
  {
    seq(|standings|, i requires 0 <= i < |standings| => RowFor(standings[i], standings, schedules, playoff))
  }

  /** The loop of `build_dataset` that appends one row per record. */
  method BuildRows(standings: seq<TeamRecord>, schedules: map<string, seq<Name>>, playoff: set<Name>)
    returns (dataset: seq<Row>)
    requires Covers(standings, schedules)
    ensures dataset == Rows(standings, schedules, playoff)
  {
    dataset := [];
    for i := 0 to |standings|
      invariant dataset == Rows(standings, schedules, playoff)[..i]
    {
      var team := standings[i];
      var beaten := schedules[team.id];
      var playoffBeaten := PlayoffBeaten(beaten, playoff);
      var played := TeamsPlayed(team, standings, schedules, playoff);
      var row := Row(team, beaten, playoffBeaten, |playoffBeaten|, |played|, team.team in playoff);
      assert row == RowFor(standings[i], standings, schedules, playoff);
      RowsSnoc(standings, schedules, playoff, i);
      dataset := dataset + [row];
    }
  }

  /** The first `i + 1` rows extend the first `i` by the row of record `i`. */
  lemma RowsSnoc(standings: seq<TeamRecord>, schedules: map<string, seq<Name>>, playoff: set<Name>, i: int)
    requires Covers(standings, schedules) && 0 <= i < |standings|
    ensures Rows(standings, schedules, playoff)[..i + 1]
         == Rows(standings, schedules, playoff)[..i] + [RowFor(standings[i], standings, schedules, playoff)]
  {
    SliceSnoc(Rows(standings, schedules, playoff), i);
  }

  /** The ids of the records. */
  function Ids(standings: seq<TeamRecord>): set<string> {
    set t | t in standings :: t.id
  }

  /** `all_schedules`: each record's id mapped to the opponents it beat; any failing schedule fails it all. */
  function Schedules(standings: seq<TeamRecord>, fetch: string -> Fetch): (r: Result<map<string, seq<Name>>>)
    ensures r.Success? ==> r.value.Keys == Ids(standings)
    ensures r.Success? ==> forall id :: id in r.value ==> TeamResults(fetch(id), id) == Success(r.value[id])
  {
    if standings == [] then Success(map[])
    else
      var n := |standings| - 1;
      assert standings == standings[..n] + [standings[n]];
      match Schedules(standings[..n], fetch)
      case Failure(e) => Failure(e)
      case Success(m) =>
        var id := standings[n].id;
        match TeamResults(fetch(id), id)
        case Failure(e) => Failure(e)
        case Success(beaten) => Success(m[id := beaten])
  }

  /** Fetching the schedules fails exactly when the schedule of some record fails. */
  lemma {:induction false} SchedulesFailure(standings: seq<TeamRecord>, fetch: string -> Fetch)
    ensures Schedules(standings, fetch).Failure? <==>
      exists i :: 0 <= i < |standings| && TeamResults(fetch(standings[i].id), standings[i].id).Failure?
  {
    if standings != [] {
      var n := |standings| - 1;
      var pre := standings[..n];
      SchedulesFailure(pre, fetch);
      assert forall i :: 0 <= i < n ==> pre[i] == standings[i];
      if !Schedules(standings, fetch).Failure? {
        forall i | 0 <= i < |standings|
          ensures !TeamResults(fetch(standings[i].id), standings[i].id).Failure?
        {
          if i < n {
            assert standings[i] == pre[i];
          }
        }
      }
    }
  }

  /** The pre-fetch loop of `build_dataset`. */
  method PrefetchSchedules(standings: seq<TeamRecord>, fetch: string -> Fetch)
    returns (r: Result<map<string, seq<Name>>>)
    ensures r == Schedules(standings, fetch)
  {
    var allSchedules: map<string, seq<Name>> := map[];
    for i := 0 to |standings|
      invariant Schedules(standings[..i], fetch) == Success(allSchedules)
    {
      var id := standings[i].id;
      var result := GetTeamResults(id, fetch(id));
      if result.Failure? {
        SchedulesFailure(standings, fetch);
        return Failure(result.error);
      }
      assert standings[..i + 1][..i] == standings[..i];
      allSchedules := allSchedules[id := result.value];
    }
    assert standings[..|standings|] == standings;
    r := Success(allSchedules);
  }

  /** The dataset `build_dataset` produces from a standings document, or the failure of a schedule. */
  function DatasetOf(data: StandingsData, fetch: string -> Fetch): Result<seq<Row>> {
    var standings := Normalize(data.children);
    match Schedules(standings, fetch)
    case Failure(e) => Failure(e)
    case Success(schedules) => Success(Rows(standings, schedules, PlayoffSet(standings)))
  }

  /** `build_dataset` without the DataFrame: records, playoff set, schedules, then rows. */
  method BuildDataset(data: StandingsData, fetch: string -> Fetch) returns (r: Result<seq<Row>>)
    ensures r == DatasetOf(data, fetch)
  {
    var standings := GetStandings(data);
    var playoffTeams := ComputePlayoffSet(standings);
    var schedules := PrefetchSchedules(standings, fetch);
    if schedules.Failure? {
      return Failure(schedules.error);
    }
    var dataset := BuildRows(standings, schedules.value, playoffTeams);
    r := Success(dataset);
  }

  /** The dataset has one row per standings record, in the same order; each row keeps its
      record's fields and is marked in the playoffs exactly when its name is in the playoff set. */
  lemma DatasetShape(data: StandingsData, fetch: string -> Fetch)
    requires DatasetOf(data, fetch).Success?
    ensures var standings := Normalize(data.children);
      var rows := DatasetOf(data, fetch).value;
      && |rows| == |standings| == EntryCount(data.children)
      && forall i :: 0 <= i < |rows| ==>
           rows[i].record == standings[i]
           && (rows[i].inPlayoffs <==> standings[i].team in PlayoffSet(standings))
           && rows[i].playoffBeatenCount == |rows[i].playoffOpponentsBeaten|
  {
    var standings := Normalize(data.children);
    NormalizeLength(data.children);
    var schedules := Schedules(standings, fetch).value;
    forall i | 0 <= i < |standings| {
      RowForSpec(standings[i], standings, schedules, PlayoffSet(standings));
    }
  }
}
