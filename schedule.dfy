/** A team's schedule and the names of the opponents it beat: the event loop of
    `get_team_results`. The fetch is a parameter: its outcome arrives as a `Fetch`. */
module Schedule {
  import opened Common

  /** A competitor's nested `team` object. */
  datatype TeamRef = TeamRef(displayName: Name)

  /** One element of a competition's `competitors` list. Each key the script reads may be
      absent; `otherKeys` says whether the object has any key besides those, which only
      matters for Python truthiness (an object with no keys at all is falsy). */
  datatype Competitor = Competitor(
    id: Option<string>,
    winner: Option<bool>,
    displayName: Name,
    team: Option<TeamRef>,
    otherKeys: bool)

  /** A competition; an absent `competitors` list is `[]`. */
  datatype Competition = Competition(competitors: seq<Competitor>)

  /** An event; `None` is an absent `competitions` key, which the script reads as `[{}]`. */
  datatype Event = Event(competitions: Option<seq<Competition>>)

  /** The decoded schedule document; an absent `events` list is `[]`. */
  datatype ScheduleData = ScheduleData(events: seq<Event>)

  /** The outcome of fetching a schedule: an HTTP error status or a decoded document. */
  datatype Fetch = HttpError | Fetched(data: ScheduleData)

  /** Python truthiness of a competitor object: false only for `{}`. */
  predicate IsEmptyObject(c: Competitor) {
    c.id.None? && c.winner.None? && c.displayName.None? && c.team.None? && !c.otherKeys
  }

  /** The team's own competitor: its `id` equals the team id. */
  function IsOwn(teamId: string): Competitor -> bool {
    (c: Competitor) => c.id == Some(teamId)
  }

  /** An opposing competitor: its `id` differs from the team id (an absent id differs too). */
  function IsOther(teamId: string): Competitor -> bool {
    (c: Competitor) => c.id != Some(teamId)
  }

  /** The opponent's `displayName`, falling back to `team.displayName` when it is absent or empty. */
  function OpponentName(opp: Competitor): Name {
    if Truthy(opp.displayName) then opp.displayName
    else if opp.team.Some? then opp.team.value.displayName
    else None
  }

  /** The competitions the script reads for an event: an absent key defaults to `[{}]`. */
  function CompetitionsOf(ev: Event): seq<Competition> {
    if ev.competitions.Some? then ev.competitions.value else [Competition([])]
  }

  /** What one competition adds to the list of beaten opponents. */
  function CompetitionWins(comp: Competition, teamId: string): seq<Name> {
    var me := First(comp.competitors, IsOwn(teamId));
    var opp := First(comp.competitors, IsOther(teamId));
    if me.None? || IsEmptyObject(me.value) || opp.None? || IsEmptyObject(opp.value) then []
    else if me.value.winner == Some(true) then [OpponentName(opp.value)]
    else []
  }

  /** A competition with no own competitor, or with no opposing one, adds nothing; otherwise the
      first own and the first opposing competitor decide: the opponent's name is added exactly
      when the own one is marked `winner` and the opposing one is not an empty object. */
  lemma CompetitionWinsSpec(comp: Competition, teamId: string)
    ensures (forall i :: 0 <= i < |comp.competitors| ==> comp.competitors[i].id != Some(teamId)) ==> CompetitionWins(comp, teamId) == []
    ensures (forall i :: 0 <= i < |comp.competitors| ==> comp.competitors[i].id == Some(teamId)) ==> CompetitionWins(comp, teamId) == []
    ensures forall i, j :: FirstAt(comp.competitors, IsOwn(teamId), i) && FirstAt(comp.competitors, IsOther(teamId), j) ==>
      CompetitionWins(comp, teamId)
      == if comp.competitors[i].winner == Some(true) && !IsEmptyObject(comp.competitors[j])
         then [OpponentName(comp.competitors[j])] else []
  {
    forall i, j | FirstAt(comp.competitors, IsOwn(teamId), i) && FirstAt(comp.competitors, IsOther(teamId), j)
      ensures CompetitionWins(comp, teamId)
           == if comp.competitors[i].winner == Some(true) && !IsEmptyObject(comp.competitors[j])
              then [OpponentName(comp.competitors[j])] else []
    {
      FirstIsAt(comp.competitors, IsOwn(teamId), i);
      FirstIsAt(comp.competitors, IsOther(teamId), j);
    }
  }

  /** What one event adds: `[0]` on a present but empty `competitions` list is an `IndexError`. */
  function EventWins(ev: Event, teamId: string): Result<seq<Name>> {
    var comps := CompetitionsOf(ev);
    if comps == [] then Failure(IndexError) else Success(CompetitionWins(comps[0], teamId))
  }

  /** The opponents beaten over a list of events, in event order; the first failing event fails it all. */
  function EventsWins(events: seq<Event>, teamId: string): Result<seq<Name>> {
    if events == [] then Success([])
    else
      match EventsWins(events[..|events| - 1], teamId)
      case Failure(e) => Failure(e)
      case Success(before) =>
        match EventWins(events[|events| - 1], teamId)
        case Failure(e) => Failure(e)
        case Success(last) => Success(before + last)
  }

  /** `get_team_results` on a fetched schedule; an HTTP error yields the empty list. */
  function TeamResults(fetched: Fetch, teamId: string): Result<seq<Name>> {
    match fetched
    case HttpError => Success([])
    case Fetched(data) => EventsWins(data.events, teamId)
  }

  /** The event loop fails exactly when some event has a present but empty `competitions` list. */
  lemma {:induction false} EventsWinsFailure(events: seq<Event>, teamId: string)
    ensures EventsWins(events, teamId).Failure? <==> exists i :: 0 <= i < |events| && events[i].competitions == Some([])
  {
    if events != [] {
      var n := |events| - 1;
      var pre := events[..n];
      EventsWinsFailure(pre, teamId);
      var lastFails := events[n].competitions == Some([]);
      assert EventWins(events[n], teamId).Failure? <==> lastFails;
      if exists i :: 0 <= i < n && pre[i].competitions == Some([]) {
        var i :| 0 <= i < n && pre[i].competitions == Some([]);
        assert events[i] == pre[i];
        assert EventsWins(events, teamId).Failure?;
      } else if lastFails {
        assert EventsWins(events, teamId).Failure?;
      } else {
        assert EventsWins(events, teamId).Success?;
        forall i | 0 <= i < |events| ensures events[i].competitions != Some([]) {
          if i < n {
            assert events[i] == pre[i];
          }
        }
      }
    }
  }

  /** Results combine in event order: the opponents beaten in `a + b` are those of `a` followed by those of `b`. */
  lemma {:induction false} EventsWinsAppend(a: seq<Event>, b: seq<Event>, teamId: string)
    requires EventsWins(a, teamId).Success? && EventsWins(b, teamId).Success?
    ensures EventsWins(a + b, teamId) == Success(EventsWins(a, teamId).value + EventsWins(b, teamId).value)
  {
    if b == [] {
      assert a + b == a;
      assert EventsWins(a, teamId).value + [] == EventsWins(a, teamId).value;
    } else {
      var n := |b| - 1;
      assert (a + b)[..|a + b| - 1] == a + b[..n];
      assert (a + b)[|a + b| - 1] == b[n];
      assert EventsWins(b[..n], teamId).Success?;
      EventsWinsAppend(a, b[..n], teamId);
      var x := EventsWins(a, teamId).value;
      var y := EventsWins(b[..n], teamId).value;
      var z := EventWins(b[n], teamId).value;
      assert EventsWins(b, teamId) == Success(y + z);
      assert EventsWins(a + b, teamId) == Success((x + y) + z);
      assert (x + y) + z == x + (y + z);
    }
  }

  /** Every name in the result is the opponent of an event the team won (`EventsWinsAppend`
      gives the result event by event). */
  lemma {:induction false} EventsWinsOrigin(events: seq<Event>, teamId: string)
    requires EventsWins(events, teamId).Success?
    ensures forall k :: 0 <= k < |EventsWins(events, teamId).value| ==>
      exists i :: 0 <= i < |events| && EventWins(events[i], teamId) == Success([EventsWins(events, teamId).value[k]])
  {
    if events != [] {
      var n := |events| - 1;
      EventsWinsOrigin(events[..n], teamId);
      var before := EventsWins(events[..n], teamId).value;
      var last := EventWins(events[n], teamId).value;
      var r := EventsWins(events, teamId).value;
      assert r == before + last;
      forall k | 0 <= k < |r|
        ensures exists i :: 0 <= i < |events| && EventWins(events[i], teamId) == Success([r[k]])
      {
        if k < |before| {
          var i :| 0 <= i < n && EventWins(events[..n][i], teamId) == Success([before[k]]);
          assert events[..n][i] == events[i];
        } else {
          assert last == [r[k]];
        }
      }
    }
  }

  /** `get_team_results` after the fetch: walks the events, appending the opponent's name each
      time the team's own competitor is marked as the winner. */
  method GetTeamResults(teamId: string, fetched: Fetch) returns (r: Result<seq<Name>>)
    ensures r == TeamResults(fetched, teamId)
  {
    if fetched.HttpError? {
      return Success([]);
    }
    var events := fetched.data.events;
    var opponentsBeaten := [];
    var i := 0;
    while i < |events|
      invariant 0 <= i <= |events|
      invariant EventsWins(events[..i], teamId) == Success(opponentsBeaten)
    {
      var comps := CompetitionsOf(events[i]);
      if comps == [] {
        EventsWinsFailure(events, teamId);
        return Failure(IndexError);
      }
      var competitors := comps[0].competitors;
      var me := First(competitors, IsOwn(teamId));
      var opp := First(competitors, IsOther(teamId));
      ghost var before := opponentsBeaten;
      if !(me.None? || IsEmptyObject(me.value) || opp.None? || IsEmptyObject(opp.value)) && me.value.winner == Some(true) {
        opponentsBeaten := opponentsBeaten + [OpponentName(opp.value)];
      }
      assert opponentsBeaten == before + CompetitionWins(comps[0], teamId);
      assert EventWins(events[i], teamId) == Success(CompetitionWins(comps[0], teamId));
      assert events[..i + 1][..i] == events[..i];
      i := i + 1;
    }
    assert events[..i] == events;
    r := Success(opponentsBeaten);
  }
}
