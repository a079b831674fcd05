/** The playoff picture of `build_dataset`: for every conference present, the seven
    best-ranked teams, ranked by more wins, then fewer losses, then higher win percentage,
    with ties kept in standings order (Python's sort is stable). */
module Playoffs {
  import opened Common
  import opened Sorting
  import opened Standings

  /** Playoff seats per conference: `conf_teams[:7]`. */
  const PlayoffSpots: nat := 7

  /** The sort key `(-wins, losses, -win_pct)`: smaller keys rank higher. */
  function RankKey(t: TeamRecord): Key {
    Key(-t.wins, t.losses, -t.winPct)
  }

  /** The conferences present: every truthy `conference` value among the records. */
  function Conferences(standings: seq<TeamRecord>): set<Name> {
    set t | t in standings && Truthy(t.conference) :: t.conference
  }

  function InConference(conf: Name): TeamRecord -> bool {
    (t: TeamRecord) => t.conference == conf
  }

  /** `[t for t in standings if t.get("conference") == conf]`. */
  function ConfTeams(standings: seq<TeamRecord>, conf: Name): seq<TeamRecord> {
    Filter(standings, InConference(conf))
  }

  /** The conference's records after the stable sort by `RankKey`, cut to the playoff seats. */
  function TopSeven(standings: seq<TeamRecord>, conf: Name): seq<TeamRecord> {
    var ranked := SortBy(ConfTeams(standings, conf), RankKey);
    ranked[..Min(PlayoffSpots, |ranked|)]
  }

  /** The team names of some records. */
  function Names(s: seq<TeamRecord>): set<Name> {
    set t | t in s :: t.team
  }

  /** The names seated by the conferences in `confs`. */
  function UnionOver(standings: seq<TeamRecord>, confs: set<Name>): set<Name> {
    set c, n | c in confs && n in Names(TopSeven(standings, c)) :: n
  }

  /** `playoff_teams`: the names seated by every conference present. */
  function PlayoffSet(standings: seq<TeamRecord>): set<Name> {
    UnionOver(standings, Conferences(standings))
  }

  /** Adding one conference adds its seated names. */
  lemma UnionOverAdd(standings: seq<TeamRecord>, done: set<Name>, c: Name)
    ensures UnionOver(standings, done + {c}) == UnionOver(standings, done) + Names(TopSeven(standings, c))
  {
  }

  /** The loop of `build_dataset` that builds `playoff_teams`, one conference at a time. */
  method ComputePlayoffSet(standings: seq<TeamRecord>) returns (playoffTeams: set<Name>)
    ensures playoffTeams == PlayoffSet(standings)
  {
    playoffTeams := {};
    var confs := Conferences(standings);
    ghost var done: set<Name> := {};
    while confs != {}
      invariant confs + done == Conferences(standings) && confs !! done
      invariant playoffTeams == UnionOver(standings, done)
      decreases confs
    {
      var conf :| conf in confs;
      var confTeams := ConfTeams(standings, conf);
      confTeams := SortBy(confTeams, RankKey);
      playoffTeams := playoffTeams + Names(confTeams[..Min(PlayoffSpots, |confTeams|)]);
      UnionOverAdd(standings, done, conf);
      confs := confs - {conf};
      done := done + {conf};
    }
  }

  /** A list of records names at most as many teams as it has records. */
  lemma {:induction false} NamesCard(s: seq<TeamRecord>)
    ensures |Names(s)| <= |s|
  {
    if s != [] {
      NamesCard(s[1..]);
      assert Names(s) == {s[0].team} + Names(s[1..]);
    }
  }

  /** Each conference seats at most seven names. */
  lemma ConferenceSeats(standings: seq<TeamRecord>, c: Name)
    ensures |Names(TopSeven(standings, c))| <= PlayoffSpots
  {
    NamesCard(TopSeven(standings, c));
  }

  /** The conferences in `confs` seat at most seven names each. */
  lemma {:induction false} UnionOverCard(standings: seq<TeamRecord>, confs: set<Name>)
    ensures |UnionOver(standings, confs)| <= PlayoffSpots * |confs|
    decreases confs
  {
    if confs != {} {
      var c :| c in confs;
      var rest := confs - {c};
      UnionOverCard(standings, rest);
      UnionOverAdd(standings, rest, c);
      assert rest + {c} == confs;
      ConferenceSeats(standings, c);
      var a, b := UnionOver(standings, rest), Names(TopSeven(standings, c));
      assert |a + b| <= |a| + |b| by {
        assert |a + b| + |a * b| == |a| + |b|;
      }
    }
  }

  /** The playoff set holds at most seven names per conference present. */
  lemma PlayoffSetSize(standings: seq<TeamRecord>)
    ensures |PlayoffSet(standings)| <= PlayoffSpots * |Conferences(standings)|
  {
    UnionOverCard(standings, Conferences(standings));
  }

  /** A seated record belongs to the standings and to that conference. */
  lemma SeatedRecord(standings: seq<TeamRecord>, c: Name, t: TeamRecord)
    requires t in TopSeven(standings, c)
    ensures t in standings && t.conference == c
  {
    var ranked := SortBy(ConfTeams(standings, c), RankKey);
    assert t in ranked;
    assert multiset(ranked)[t] > 0;
    FilterMember(standings, InConference(c), t);
  }

  /** A name is in the playoff set exactly when some record of that name, whose conference is
      present (truthy), is among the seven best-ranked of its conference. */
  lemma PlayoffSetMembership(standings: seq<TeamRecord>, n: Name)
    ensures n in PlayoffSet(standings) <==>
      exists t :: t in standings && Truthy(t.conference) && t in TopSeven(standings, t.conference) && t.team == n
  {
    if n in PlayoffSet(standings) {
      var c, t :| c in Conferences(standings) && t in TopSeven(standings, c) && t.team == n;
      SeatedRecord(standings, c, t);
    }
    if exists t :: t in standings && Truthy(t.conference) && t in TopSeven(standings, t.conference) && t.team == n {
      var t :| t in standings && Truthy(t.conference) && t in TopSeven(standings, t.conference) && t.team == n;
      assert t.conference in Conferences(standings);
      assert n in Names(TopSeven(standings, t.conference));
    }
  }

  /** The teams ranked strictly above `t`. */
  function Outranks(t: TeamRecord): TeamRecord -> bool {
    (u: TeamRecord) => Precedes(RankKey(u), RankKey(t))
  }

  /** The other teams ranked at least as high as `t`. */
  function Rivals(t: TeamRecord): TeamRecord -> bool {
    (u: TeamRecord) => u != t && !Precedes(RankKey(t), RankKey(u))
  }

  /** In a ranked list, every team ranked strictly above the one at `p` stands before `p`. */
  lemma OutrankersBefore(s: seq<TeamRecord>, p: int)
    requires SortedBy(s, RankKey) && 0 <= p < |s|
    ensures |Filter(s, Outranks(s[p]))| <= p
  {
    var P := Outranks(s[p]);
    SortedAfter(s, RankKey, p);
    assert s == s[..p] + s[p..];
    FilterAppend(s[..p], s[p..], P);
    FilterExtremes(s[p..], P);
  }

  /** In a ranked list, everything before the first occurrence of a team ranks at least as high. */
  lemma RivalsBefore(s: seq<TeamRecord>, p: int)
    requires SortedBy(s, RankKey) && 0 <= p < |s|
    requires forall j :: 0 <= j < p ==> s[j] != s[p]
    ensures |Filter(s, Rivals(s[p]))| >= p
  {
    var P := Rivals(s[p]);
    assert s == s[..p] + s[p..];
    FilterAppend(s[..p], s[p..], P);
    FilterExtremes(s[..p], P);
  }

  /** A team that seven same-conference teams outrank is not seated, and if no other record
      carries its name, its name is not in the playoff set. */
  lemma OutrankedExcluded(standings: seq<TeamRecord>, t: TeamRecord)
    requires t in standings
    requires |Filter(ConfTeams(standings, t.conference), Outranks(t))| >= PlayoffSpots
    ensures t !in TopSeven(standings, t.conference)
    ensures (forall u :: u in standings && u.team == t.team ==> u == t) ==> t.team !in PlayoffSet(standings)
  {
    var ranked := SortBy(ConfTeams(standings, t.conference), RankKey);
    FilterPermutation(ranked, ConfTeams(standings, t.conference), Outranks(t));
    forall p | 0 <= p < Min(PlayoffSpots, |ranked|) ensures ranked[p] != t {
      OutrankersBefore(ranked, p);
    }
    if forall u :: u in standings && u.team == t.team ==> u == t {
      PlayoffSetMembership(standings, t.team);
    }
  }

  /** A team of a present conference with fewer than seven other same-conference teams ranked
      at least as high is seated, so its name is in the playoff set. */
  lemma FewRivalsIncluded(standings: seq<TeamRecord>, t: TeamRecord)
    requires t in standings && Truthy(t.conference)
    requires |Filter(ConfTeams(standings, t.conference), Rivals(t))| < PlayoffSpots
    ensures t in TopSeven(standings, t.conference)
    ensures t.team in PlayoffSet(standings)
  {
    var confTeams := ConfTeams(standings, t.conference);
    var ranked := SortBy(confTeams, RankKey);
    FilterMember(standings, InConference(t.conference), t);
    assert multiset(ranked)[t] == multiset(confTeams)[t] > 0;
    var p := IndexOf(ranked, t);
    RivalsBefore(ranked, p);
    FilterPermutation(ranked, confTeams, Rivals(t));
    assert ranked[..Min(PlayoffSpots, |ranked|)][p] == t;
    PlayoffSetMembership(standings, t.team);
  }
}
