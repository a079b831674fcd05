/** The standings feed and the flat team records built from it: `_stat` and the
    record-building loop of `get_standings`. The fetch itself is a parameter: the
    feed arrives as a `StandingsData` value. */
module Standings {
  import opened Common

  /** One `{name, value}` entry of an entry's `stats` list; either key may be absent. */
  datatype Stat = Stat(name: Option<string>, value: Option<int>)

  /** An entry's `team` object; an absent `team` is the all-absent `TeamInfo(None, None)`. */
  datatype TeamInfo = TeamInfo(id: Option<string>, displayName: Name)

  /** One standings entry; an absent `stats` list is `[]`. */
  datatype Entry = Entry(team: TeamInfo, stats: seq<Stat>)

  /** One element of `children` (a conference); an absent `standings.entries` is `[]`. */
  datatype Child = Child(name: Name, entries: seq<Entry>)

  /** The decoded standings document; an absent `children` list is `[]`. */
  datatype StandingsData = StandingsData(children: seq<Child>)

  /** A flat team record. `winPct` stands for the feed's `winPercent` and is only ever compared. */
  datatype TeamRecord = TeamRecord(
    id: string,
    team: Name,
    wins: int,
    losses: int,
    winPct: int,
    conference: Name)

  /** The filter that recognises a stat called `name`. */
  function NamedStat(name: string): Stat -> bool {
    (s: Stat) => s.name == Some(name)
  }

  /** Index `i` holds the first stat called `name`. */
  ghost predicate FirstStat(stats: seq<Stat>, name: string, i: int) {
    0 <= i < |stats| && stats[i].name == Some(name)
    && forall j :: 0 <= j < i ==> stats[j].name != Some(name)
  }

  /** `_stat`: the value of the first stat called `name` (which may itself be absent),
      or `None` when no stat has that name; later stats of the same name are ignored. */
  function StatLookup(stats: seq<Stat>, name: string): (r: Option<int>)
    ensures forall i :: FirstStat(stats, name, i) ==> r == stats[i].value
    ensures (forall i :: 0 <= i < |stats| ==> stats[i].name != Some(name)) ==> r == None
  {
    match First(stats, NamedStat(name))
    case None => None
    case Some(s) => s.value
  }

  /** `v` is what `_stat(entry, name) or 0` yields: 0 when no stat has that name,
      otherwise the first such stat's value, with an absent or zero value read as 0. */
  ghost predicate StatOrZero(stats: seq<Stat>, name: string, v: int) {
    && ((forall i :: 0 <= i < |stats| ==> stats[i].name != Some(name)) ==> v == 0)
    && (forall i :: FirstStat(stats, name, i) ==> v == OrZero(stats[i].value))
  }

  /** Python `str(team_id)` for an id that is a string or absent. */
  function IdText(id: Option<string>): string {
    if id.Some? then id.value else "None"
  }

  /** The record built for one entry of the conference called `conference`. */
  function NormalizeEntry(e: Entry, conference: Name): TeamRecord {
    TeamRecord(
      IdText(e.team.id),
      e.team.displayName,
      OrZero(StatLookup(e.stats, "wins")),
      OrZero(StatLookup(e.stats, "losses")),
      OrZero(StatLookup(e.stats, "winPercent")),
      conference)
  }

  /** A record keeps its entry's id and name, takes the enclosing child's name as its
      conference, and reads each of wins, losses and win percentage as 0 when the stat
      is missing, absent-valued or zero. */
  lemma NormalizeEntryFields(e: Entry, conference: Name)
    ensures var r := NormalizeEntry(e, conference);
      && r.id == IdText(e.team.id) && r.team == e.team.displayName && r.conference == conference
      && StatOrZero(e.stats, "wins", r.wins)
      && StatOrZero(e.stats, "losses", r.losses)
      && StatOrZero(e.stats, "winPercent", r.winPct)
  {
  }

  /** The records of one child, in entry order. */
  function NormalizeChild(c: Child): seq<TeamRecord> {
    seq(|c.entries|, k requires 0 <= k < |c.entries| => NormalizeEntry(c.entries[k], c.name))
  }

  /** The records of all children, child after child. */
  function Normalize(children: seq<Child>): seq<TeamRecord> {
    FlatMap(children, NormalizeChild)
  }

  /** The number of entries over all children. */
  function EntryCount(children: seq<Child>): nat {
    if children == [] then 0
    else EntryCount(children[..|children| - 1]) + |children[|children| - 1].entries|
  }

  /** Each child yields one record per entry. */
  lemma {:induction false} EntryCountRecords(children: seq<Child>)
    ensures EntryCount(children) == FlatLength(children, NormalizeChild)
  {
    if children != [] {
      EntryCountRecords(children[..|children| - 1]);
    }
  }

  /** One record per entry: the records are as many as the entries. */
  lemma NormalizeLength(children: seq<Child>)
    ensures |Normalize(children)| == EntryCount(children)
  {
    EntryCountRecords(children);
    FlatMapLength(children, NormalizeChild);
  }

  /** Child-then-entry order: entry `e` of child `c` becomes the record at offset `e`
      past the entries of the children before `c`, and carries that child's name. */
  lemma NormalizeAt(children: seq<Child>, c: int, e: int)
    requires 0 <= c < |children| && 0 <= e < |children[c].entries|
    ensures EntryCount(children[..c]) + e < |Normalize(children)|
    ensures Normalize(children)[EntryCount(children[..c]) + e] == NormalizeEntry(children[c].entries[e], children[c].name)
  {
    EntryCountRecords(children[..c]);
    FlatMapAt(children, NormalizeChild, c, e);
  }

  /** The records of a child's first `j + 1` entries extend those of its first `j`. */
  lemma NormalizeChildPrefix(c: Child, j: int)
    requires 0 <= j < |c.entries|
    ensures NormalizeChild(c)[..j + 1] == NormalizeChild(c)[..j] + [NormalizeEntry(c.entries[j], c.name)]
  {
    SliceSnoc(NormalizeChild(c), j);
  }

  /** `get_standings` after the fetch: walks children and their entries, appending one record each. */
  method GetStandings(data: StandingsData) returns (teams: seq<TeamRecord>)
    ensures teams == Normalize(data.children)
  {
    teams := [];
    var i := 0;
    while i < |data.children|
      invariant 0 <= i <= |data.children|
      invariant teams == Normalize(data.children[..i])
    {
      var child := data.children[i];
      var conference := child.name;
      ghost var before := teams;
      var j := 0;
      while j < |child.entries|
        invariant 0 <= j <= |child.entries|
        invariant teams == before + NormalizeChild(child)[..j]
      {
        var entry := child.entries[j];
        teams := teams + [NormalizeEntry(entry, conference)];
        NormalizeChildPrefix(child, j);
        j := j + 1;
      }
      assert NormalizeChild(child)[..j] == NormalizeChild(child);
      FlatMapSnoc(data.children, NormalizeChild, i);
      i := i + 1;
    }
    assert data.children[..i] == data.children;
  }
}
