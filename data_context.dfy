/** The database context: one table per entity set. Repositories read
    these tables and reassign them when pending changes are saved. */
module Data {
  import opened Entities
  import opened Queries

  /** The team entries of one tournament, in table order. */
  function TeamsOf(entries: seq<TournamentTeam>, tournamentId: int): (r: seq<TournamentTeam>)
    ensures forall e :: e in r <==> e in entries && e.tournamentId == tournamentId
  {
    Where(entries, (e: TournamentTeam) => e.tournamentId == tournamentId)
  }

  /** The matches of one tournament, in table order. */
  function MatchesOf(matches: seq<Match>, tournamentId: int): (r: seq<Match>)
    ensures forall m :: m in r <==> m in matches && m.tournamentId == tournamentId
  {
    Where(matches, (m: Match) => m.tournamentId == tournamentId)
  }

  /** The memberships of one group, in table order. */
  function MembersOf(userGroups: seq<UserGroup>, groupId: int): (r: seq<UserGroup>)
    ensures forall m :: m in r <==> m in userGroups && m.groupId == groupId
  {
    Where(userGroups, (m: UserGroup) => m.groupId == groupId)
  }

  class DataContext {
    var countries: seq<Country>
    var teams: seq<Team>
    var tournaments: seq<Tournament>
    var tournamentTeams: seq<TournamentTeam>
    var matches: seq<Match>
    var groups: seq<Group>
    var userGroups: seq<UserGroup>
    var predictions: seq<Prediction>
    var users: seq<User>

    /** `EnsureCreatedAsync` on a fresh database: every table empty. */
    constructor ()
      ensures countries == [] && teams == [] && tournaments == []
      ensures tournamentTeams == [] && matches == [] && groups == []
      ensures userGroups == [] && predictions == [] && users == []
    {
      countries, teams, tournaments := [], [], [];
      tournamentTeams, matches, groups := [], [], [];
      userGroups, predictions, users := [], [], [];
    }
  }
}
