/** The report order of the script's entry point: the playoff rows, best first, then the
    other rows, best first, where "best" means more wins over playoff teams, then more wins,
    then a higher win percentage. */
module Report {
  import opened Common
  import opened Sorting
  import opened Dataset

  /** `by=["playoff_beaten_count", "wins", "win_pct"]`, all descending: smaller keys come first. */
  function ReportKey(row: Row): Key {
    Key(-(row.playoffBeatenCount as int), -row.record.wins, -row.record.winPct)
  }

  /** `df["in_playoffs"]`. */
  function IsPlayoffRow(): Row -> bool {
    (row: Row) => row.inPlayoffs
  }

  /** `~df["in_playoffs"]`. */
  function IsOtherRow(): Row -> bool {
    (row: Row) => !row.inPlayoffs
  }

  /** The playoff rows, sorted: `playoff_sorted`. */
  function PlayoffPart(dataset: seq<Row>): seq<Row> {
    SortBy(Filter(dataset, IsPlayoffRow()), ReportKey)
  }

  /** The other rows, sorted: `non_playoff_sorted`. */
  function OtherPart(dataset: seq<Row>): seq<Row> {
    SortBy(Filter(dataset, IsOtherRow()), ReportKey)
  }

  /** `pd.concat([playoff_sorted, non_playoff_sorted])`: the combined table. */
  function Combined(dataset: seq<Row>): seq<Row> {
    PlayoffPart(dataset) + OtherPart(dataset)
  }

  /** The first part holds exactly the dataset's playoff rows, the second exactly the others. */
  lemma PartMembers(dataset: seq<Row>, row: Row)
    ensures row in PlayoffPart(dataset) <==> row in dataset && row.inPlayoffs
    ensures row in OtherPart(dataset) <==> row in dataset && !row.inPlayoffs
  {
    var top, rest := PlayoffPart(dataset), OtherPart(dataset);
    assert row in top <==> multiset(top)[row] > 0;
    assert row in rest <==> multiset(rest)[row] > 0;
    FilterMember(dataset, IsPlayoffRow(), row);
    FilterMember(dataset, IsOtherRow(), row);
  }

  /** The playoff and the other rows together are the dataset's rows. */
  lemma SplitPermutation(dataset: seq<Row>)
    ensures multiset(PlayoffPart(dataset)) + multiset(OtherPart(dataset)) == multiset(dataset)
  {
    FilterMultiset(dataset, IsPlayoffRow());
    FilterMultiset(dataset, IsOtherRow());
    assert forall r :: IsPlayoffRow()(r) != IsOtherRow()(r);
  }

  /** Every row of the first part is a playoff row; no row of the second part is. */
  lemma PartsLabelled(dataset: seq<Row>)
    ensures forall i :: 0 <= i < |PlayoffPart(dataset)| ==> PlayoffPart(dataset)[i].inPlayoffs
    ensures forall i :: 0 <= i < |OtherPart(dataset)| ==> !OtherPart(dataset)[i].inPlayoffs
  {
    var top, rest := PlayoffPart(dataset), OtherPart(dataset);
    forall i | 0 <= i < |top| ensures top[i].inPlayoffs {
      PartMembers(dataset, top[i]);
    }
    forall i | 0 <= i < |rest| ensures !rest[i].inPlayoffs {
      PartMembers(dataset, rest[i]);
    }
  }

  /** Two sorted parts, the first all playoff rows and the second none, concatenate into a
      table that is sorted within each kind of row. */
  lemma ConcatOrdered(top: seq<Row>, rest: seq<Row>)
    requires SortedBy(top, ReportKey) && SortedBy(rest, ReportKey)
    requires forall i :: 0 <= i < |top| ==> top[i].inPlayoffs
    requires forall i :: 0 <= i < |rest| ==> !rest[i].inPlayoffs
    ensures var out := top + rest;
      forall i, j :: 0 <= i < j < |out| && out[i].inPlayoffs == out[j].inPlayoffs ==>
        !Precedes(ReportKey(out[j]), ReportKey(out[i]))
  {
    var out := top + rest;
    var k := |top|;
    forall i, j | 0 <= i < j < |out| && out[i].inPlayoffs == out[j].inPlayoffs
      ensures !Precedes(ReportKey(out[j]), ReportKey(out[i]))
    {
      if j < k {
        assert out[i] == top[i] && out[j] == top[j];
      } else if k <= i {
        assert out[i] == rest[i - k] && out[j] == rest[j - k];
      }
    }
  }

  /** Labels carry over to the concatenation: the first `|top|` rows are playoff rows, the rest are not. */
  lemma ConcatLabelled(top: seq<Row>, rest: seq<Row>)
    requires forall i :: 0 <= i < |top| ==> top[i].inPlayoffs
    requires forall i :: 0 <= i < |rest| ==> !rest[i].inPlayoffs
    ensures forall i :: 0 <= i < |top| ==> (top + rest)[i].inPlayoffs
    ensures forall i :: |top| <= i < |top + rest| ==> !(top + rest)[i].inPlayoffs
  {
    var out := top + rest;
    forall i | |top| <= i < |out| ensures !out[i].inPlayoffs {
      assert out[i] == rest[i - |top|];
    }
  }

  /** The combined table holds every row of the dataset exactly once; the playoff rows fill its
      first part and the other rows the rest; within each part the rows are ordered by
      playoff wins, then wins, then win percentage, all descending. */
  lemma CombinedSpec(dataset: seq<Row>)
    ensures var out := Combined(dataset);
      var k := |PlayoffPart(dataset)|;
      && multiset(out) == multiset(dataset)
      && k <= |out|
      && (forall i :: 0 <= i < k ==> out[i].inPlayoffs)
      && (forall i :: k <= i < |out| ==> !out[i].inPlayoffs)
      && (forall i, j :: 0 <= i < j < |out| && out[i].inPlayoffs == out[j].inPlayoffs ==>
            !Precedes(ReportKey(out[j]), ReportKey(out[i])))
  {
    var top, rest := PlayoffPart(dataset), OtherPart(dataset);
    SplitPermutation(dataset);
    PartsLabelled(dataset);
    ConcatOrdered(top, rest);
    ConcatLabelled(top, rest);
  }
}
