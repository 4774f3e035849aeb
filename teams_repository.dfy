/** `TeamsRepository`: creating, updating and listing teams. */
module Teams {
  import opened Common
  import opened Text
  import opened Queries
  import opened Guids
  import opened Entities
  import opened Photos
  import opened Dtos
  import opened Data

  function TeamName(t: Team): string { t.name }

  function TeamId(t: Team): int { t.id }

  /** `Countries.FindAsync(id)`. */
  function FindCountry(countries: seq<Country>, id: int): (r: Option<Country>)
    ensures r.Some? ==> r.value in countries && r.value.id == id
    ensures r.None? <==> forall c :: c in countries ==> c.id != id
  {
    First(countries, (c: Country) => c.id == id)
  }

  /** Position of `Teams.FindAsync(id)` in the table. */
  function TeamIndex(teams: seq<Team>, id: int): (r: Option<nat>)
    ensures r.Some? ==> r.value < |teams| && teams[r.value].id == id
    ensures r.None? <==> forall j :: 0 <= j < |teams| ==> teams[j].id != id
  {
    IndexWhere(teams, (t: Team) => t.id == id)
  }

  class TeamsRepository {
    const context: DataContext

    constructor (context: DataContext)
      ensures this.context == context
    {
      this.context := context;
    }

    /** `AddAsync`: an unknown country fails with ERR004; otherwise the team
        gets a fresh id, the DTO's name and country, and the photo rule's
        image, and is inserted when the save succeeds. */
    method AddAsync(dto: TeamDto, photoGuid: Guid, uploaded: bool, save: SaveOutcome)
      returns (r: ActionResponse<Team>)
      modifies context`teams
      ensures FindCountry(context.countries, dto.countryId).None? ==>
        r == Failure(ERR004) && context.teams == old(context.teams)
      ensures FindCountry(context.countries, dto.countryId).Some? ==>
        var team := Team(NextId(old(context.teams), TeamId), dto.name,
          Some(NewImage(dto.image, TeamsFolder, photoGuid, uploaded)), dto.countryId);
        && r == SaveResponse(save, team)
        && context.teams == (if save.Saved? then old(context.teams) + [team] else old(context.teams))
      ensures r.Success? ==> forall t :: t in old(context.teams) ==> t.id != r.result.id
    {
      var country := FindCountry(context.countries, dto.countryId);
      if country.None? {
        return Failure(ERR004);
      }
      var image: string;
      if dto.image.Some? {
        var file := PhotoFile(photoGuid);
        var fullPath := ImagePath(TeamsFolder, file);
        if uploaded {
          image := fullPath;
        } else {
          image := "";
        }
      } else {
        image := "";
      }
      var team := Team(NextId(context.teams, TeamId), dto.name, Some(image), country.value.id);
      r := SaveResponse(save, team);
      if save.Saved? {
        context.teams := context.teams + [team];
      }
    }

    /** `GetComboAsync(countryId)`: exactly the teams of that country,
        ordered by name. */
    function GetComboAsync(countryId: int): (r: seq<Team>)
      reads context
      ensures SortedBy(r, TeamName)
      ensures forall t :: t in r <==> t in context.teams && t.countryId == countryId
      ensures forall t :: multiset(r)[t] == if t.countryId == countryId then multiset(context.teams)[t] else 0
    {
      var teams := context.teams;
      var ofCountry := (t: Team) => t.countryId == countryId;
      WhereMultiset(teams, ofCountry);
      SortBy(Where(teams, ofCountry), TeamName)
    }

    /** `UpdateAsync`: a missing team fails with ERR005, then an unknown
        country with ERR004, both without change. Otherwise name and country
        are overwritten, the image only when a photo is sent, and the row is
        replaced when the save succeeds. */
    method UpdateAsync(dto: TeamDto, photoGuid: Guid, uploaded: bool, save: SaveOutcome)
      returns (r: ActionResponse<Team>)
      modifies context`teams
      ensures TeamIndex(old(context.teams), dto.id).None? ==>
        r == Failure(ERR005) && context.teams == old(context.teams)
      ensures TeamIndex(old(context.teams), dto.id).Some? && FindCountry(context.countries, dto.countryId).None? ==>
        r == Failure(ERR004) && context.teams == old(context.teams)
      ensures TeamIndex(old(context.teams), dto.id).Some? && FindCountry(context.countries, dto.countryId).Some? ==>
        var k := TeamIndex(old(context.teams), dto.id).value;
        var current := old(context.teams)[k];
        var updated := current.(
          name := dto.name,
          countryId := dto.countryId,
          image := KeptImage(current.image, dto.image, TeamsFolder, photoGuid, uploaded));
        && r == SaveResponse(save, updated)
        && context.teams == (if save.Saved? then old(context.teams)[k := updated] else old(context.teams))
    {
      var index := TeamIndex(context.teams, dto.id);
      if index.None? {
        return Failure(ERR005);
      }
      var current := context.teams[index.value];
      var country := FindCountry(context.countries, dto.countryId);
      if country.None? {
        return Failure(ERR004);
      }
      if dto.image.Some? {
        var file := PhotoFile(photoGuid);
        var fullPath := ImagePath(TeamsFolder, file);
        if uploaded {
          current := current.(image := Some(fullPath));
        } else {
          current := current.(image := Some(""));
        }
      }
      current := current.(countryId := country.value.id);
      current := current.(name := dto.name);
      r := SaveResponse(save, current);
      if save.Saved? {
        context.teams := context.teams[index.value := current];
      }
    }

    /** `GetAsync()`: every team, ordered by name. */
    function GetAllAsync(): (r: seq<Team>)
      reads context
      ensures SortedBy(r, TeamName)
      ensures multiset(r) == multiset(context.teams)
    {
      SortBy(context.teams, TeamName)
    }

    /** `GetAsync(id)`: the team with that id, or ERR001. */
    function GetAsync(id: int): (r: ActionResponse<Team>)
      reads context
      ensures r.Success? <==> exists t :: t in context.teams && t.id == id
      ensures r.Success? ==> r.result in context.teams && r.result.id == id
      ensures r.Failure? ==> r.message == ERR001
    {
      match First(context.teams, (t: Team) => t.id == id)
      case None => Failure(ERR001)
      case Some(t) => Success(t)
    }

    /** `GetAsync(pagination)` before paging: the teams whose name passes the
        filter, ordered by name. */
    function GetPagedAsync(pagination: PaginationDto): (r: seq<Team>)
      reads context
      ensures SortedBy(r, TeamName)
      ensures forall t :: t in r <==> t in context.teams && NameMatches(t.name, pagination.filter)
      ensures forall t ::
        multiset(r)[t] == if NameMatches(t.name, pagination.filter) then multiset(context.teams)[t] else 0
    {
      var teams := context.teams;
      var keep := (t: Team) => NameMatches(t.name, pagination.filter);
      OrderedCount(teams, keep, TeamName);
      WhereMultiset(teams, keep);
      SortBy(Where(teams, keep), TeamName)
    }

    /** `GetTotalRecordsAsync(pagination)`: the number of teams the same
        filter keeps, which is the length of the unpaged list. */
    function GetTotalRecordsAsync(pagination: PaginationDto): (r: nat)
      reads context
      ensures r == |GetPagedAsync(pagination)|
    {
      var teams := context.teams;
      var keep := (t: Team) => NameMatches(t.name, pagination.filter);
      OrderedCount(teams, keep, TeamName);
      |Where(teams, keep)|
    }
  }
}
