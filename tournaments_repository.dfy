/** `TournamentsRepository`: creating, updating and listing tournaments. */
module Tournaments {
  import opened Common
  import opened Text
  import opened Queries
  import opened Guids
  import opened Entities
  import opened Photos
  import opened Dtos
  import opened Data

  function TournamentName(t: Tournament): string { t.name }

  function TournamentId(t: Tournament): int { t.id }

  /** Position of `Tournaments.FindAsync(id)` in the table. */
  function TournamentIndex(tournaments: seq<Tournament>, id: int): (r: Option<nat>)
    ensures r.Some? ==> r.value < |tournaments| && tournaments[r.value].id == id
    ensures r.None? <==> forall j :: 0 <= j < |tournaments| ==> tournaments[j].id != id
  {
    IndexWhere(tournaments, (t: Tournament) => t.id == id)
  }

  /** `Include(TournamentTeams)`: only the team entries are loaded. */
  function WithTeams(t: Tournament, entries: seq<TournamentTeam>): (r: Tournament)
    ensures r.tournamentTeams == Some(TeamsOf(entries, t.id))
    ensures r.TeamsCount() == |TeamsOf(entries, t.id)|
    ensures r.MatchesCount() == 0 && r.GroupsCount() == 0 && r.PredictionsCount() == 0
    ensures Unloaded(r) == Unloaded(t)
  {
    Unloaded(t).(tournamentTeams := Some(TeamsOf(entries, t.id)))
  }

  /** `Include(Matches).Include(TournamentTeams)`. */
  function WithTeamsAndMatches(t: Tournament, entries: seq<TournamentTeam>, matches: seq<Match>)
    : (r: Tournament)
    ensures r.tournamentTeams == Some(TeamsOf(entries, t.id))
    ensures r.matches == Some(MatchesOf(matches, t.id))
    ensures r.TeamsCount() == |TeamsOf(entries, t.id)|
    ensures r.MatchesCount() == |MatchesOf(matches, t.id)|
    ensures r.GroupsCount() == 0 && r.PredictionsCount() == 0
    ensures Unloaded(r) == Unloaded(t)
  {
    Unloaded(t).(tournamentTeams := Some(TeamsOf(entries, t.id)), matches := Some(MatchesOf(matches, t.id)))
  }

  /** The filtered rows with matches and team entries included, in order. */
  function WithTeamsAndMatchesAll(kept: seq<Tournament>, entries: seq<TournamentTeam>, matches: seq<Match>)
    : (r: seq<Tournament>)
    ensures |r| == |kept|
    ensures forall i :: 0 <= i < |kept| ==> r[i] == WithTeamsAndMatches(kept[i], entries, matches)
  {
    Select(kept, (t: Tournament) => WithTeamsAndMatches(t, entries, matches))
  }

  class TournamentsRepository {
    const context: DataContext

    constructor (context: DataContext)
      ensures this.context == context
    {
      this.context := context;
    }

    /** `AddAsync`: a new tournament is inactive with an empty team list,
        whatever the DTO says, takes the photo rule's image, and its row is
        inserted when the save succeeds. No reference is checked. */
    method AddAsync(dto: TournamentDto, photoGuid: Guid, uploaded: bool, save: SaveOutcome)
      returns (r: ActionResponse<Tournament>)
      modifies context`tournaments
      ensures
        var tournament := Tournament(NextId(old(context.tournaments), TournamentId), dto.name,
          Some(NewImage(dto.image, TournamentsFolder, photoGuid, uploaded)), false, dto.remarks,
          Some([]), None, None, None);
        && r == SaveResponse(save, tournament)
        && context.tournaments ==
             (if save.Saved? then old(context.tournaments) + [Unloaded(tournament)] else old(context.tournaments))
      ensures r.Success? ==> !r.result.isActive && r.result.TeamsCount() == 0
      ensures r.Success? ==> forall t :: t in old(context.tournaments) ==> t.id != r.result.id
    {
      var tournament := Tournament(NextId(context.tournaments, TournamentId), dto.name, None, false,
        dto.remarks, Some([]), None, None, None);
      if dto.image.Some? {
        var file := PhotoFile(photoGuid);
        var fullPath := ImagePath(TournamentsFolder, file);
        if uploaded {
          tournament := tournament.(image := Some(fullPath));
        } else {
          tournament := tournament.(image := Some(""));
        }
      } else {
        tournament := tournament.(image := Some(""));
      }
      r := SaveResponse(save, tournament);
      if save.Saved? {
        context.tournaments := context.tournaments + [Unloaded(tournament)];
      }
    }

    /** `GetComboAsync()`: exactly the active tournaments, ordered by name. */
    function GetComboAsync(): (r: seq<Tournament>)
      reads context
      ensures SortedBy(r, TournamentName)
      ensures forall x :: x in r ==> x.isActive
      ensures forall t :: t in context.tournaments && t.isActive ==> Unloaded(t) in r
      ensures forall x :: x in r ==> exists t :: t in context.tournaments && x == Unloaded(t)
      ensures |r| == |Where(context.tournaments, (t: Tournament) => t.isActive)|
      ensures multiset(r) == multiset(Select(Where(context.tournaments, (t: Tournament) => t.isActive), Unloaded))
    {
      var active := Where(context.tournaments, (t: Tournament) => t.isActive);
      var loaded := Select(active, Unloaded);
      SelectMembers(active, Unloaded);
      SortByMembers(loaded, TournamentName);
      SortBy(loaded, TournamentName)
    }

    /** `GetAsync(pagination)` before paging: the tournaments whose name
        passes the filter, with their matches and team entries loaded,
        ordered by name. */
    function GetPagedAsync(pagination: PaginationDto): (r: seq<Tournament>)
      reads context
      ensures SortedBy(r, TournamentName)
      ensures forall x :: x in r ==> NameMatches(x.name, pagination.filter)
      ensures forall t :: t in context.tournaments && NameMatches(t.name, pagination.filter) ==>
        WithTeamsAndMatches(t, context.tournamentTeams, context.matches) in r
      ensures forall x :: x in r ==>
        exists t :: t in context.tournaments && x == WithTeamsAndMatches(t, context.tournamentTeams, context.matches)
      ensures |r| == |Where(context.tournaments, (t: Tournament) => NameMatches(t.name, pagination.filter))|
      ensures multiset(r) == multiset(WithTeamsAndMatchesAll(
        Where(context.tournaments, (t: Tournament) => NameMatches(t.name, pagination.filter)),
        context.tournamentTeams, context.matches))
    {
      var entries, matches := context.tournamentTeams, context.matches;
      var keep := (t: Tournament) => NameMatches(t.name, pagination.filter);
      var load := (t: Tournament) => WithTeamsAndMatches(t, entries, matches);
      var kept := Where(context.tournaments, keep);
      LoadedListing(kept, load, TournamentName);
      assert Select(kept, load) == WithTeamsAndMatchesAll(kept, entries, matches);
      SortBy(Select(kept, load), TournamentName)
    }

    /** `GetAsync(id)`: the tournament with its team entries loaded, or
        ERR001. Its matches are not included, so it reports no matches. */
    function GetAsync(id: int): (r: ActionResponse<Tournament>)
      reads context
      ensures r.Success? <==> exists t :: t in context.tournaments && t.id == id
      ensures r.Success? ==> r.result.id == id
      ensures r.Success? ==> exists t :: t in context.tournaments && r.result == WithTeams(t, context.tournamentTeams)
      ensures r.Success? ==> r.result.TeamsCount() == |TeamsOf(context.tournamentTeams, id)|
      ensures r.Success? ==> r.result.MatchesCount() == 0
      ensures r.Failure? ==> r.message == ERR001
    {
      match First(context.tournaments, (t: Tournament) => t.id == id)
      case None => Failure(ERR001)
      case Some(t) => Success(WithTeams(t, context.tournamentTeams))
    }

    /** `GetTotalRecordsAsync(pagination)`: the number of tournaments the same
        filter keeps, which is the length of the unpaged list. */
    function GetTotalRecordsAsync(pagination: PaginationDto): (r: nat)
      reads context
      ensures r == |GetPagedAsync(pagination)|
    {
      |Where(context.tournaments, (t: Tournament) => NameMatches(t.name, pagination.filter))|
    }

    /** `UpdateAsync`: a missing tournament fails with ERR005 without change.
        Otherwise name, active flag and remarks are overwritten and so is the
        image: when no photo is sent it is cleared to empty. */
    method UpdateAsync(dto: TournamentDto, photoGuid: Guid, uploaded: bool, save: SaveOutcome)
      returns (r: ActionResponse<Tournament>)
      modifies context`tournaments
      ensures TournamentIndex(old(context.tournaments), dto.id).None? ==>
        r == Failure(ERR005) && context.tournaments == old(context.tournaments)
      ensures TournamentIndex(old(context.tournaments), dto.id).Some? ==>
        var k := TournamentIndex(old(context.tournaments), dto.id).value;
        var updated := old(context.tournaments)[k].(
          image := Some(NewImage(dto.image, TournamentsFolder, photoGuid, uploaded)),
          name := dto.name,
          isActive := dto.isActive,
          remarks := dto.remarks);
        && r == SaveResponse(save, updated)
        && context.tournaments ==
             (if save.Saved? then old(context.tournaments)[k := updated] else old(context.tournaments))
      ensures dto.image.None? && r.Success? ==> r.result.image == Some("")
    {
      var index := TournamentIndex(context.tournaments, dto.id);
      if index.None? {
        return Failure(ERR005);
      }
      var current := context.tournaments[index.value];
      if dto.image.Some? {
        var file := PhotoFile(photoGuid);
        var fullPath := ImagePath(TournamentsFolder, file);
        if uploaded {
          current := current.(image := Some(fullPath));
        } else {
          current := current.(image := Some(""));
        }
      } else {
        current := current.(image := Some(""));
      }
      current := current.(name := dto.name, isActive := dto.isActive, remarks := dto.remarks);
      r := SaveResponse(save, current);
      if save.Saved? {
        context.tournaments := context.tournaments[index.value := current];
      }
    }
  }
}
