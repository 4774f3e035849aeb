/** `GroupsRepository`: creating, updating and listing prediction groups,
    and back-filling their predictions. */
module Groups {
  import opened Common
  import opened Text
  import opened Queries
  import opened Guids
  import opened Entities
  import opened Photos
  import opened Dtos
  import opened Data
  import opened Reconcile

  function GroupName(g: Group): string { g.name }

  function GroupId(g: Group): int { g.id }

  /** `IUsersRepository.GetUserAsync(id)` over the users table. */
  function FindUser(users: seq<User>, id: string): (r: Option<User>)
    ensures r.Some? ==> r.value in users && r.value.id == id
    ensures r.None? <==> forall u :: u in users ==> u.id != id
  {
    First(users, (u: User) => u.id == id)
  }

  /** `Tournaments.FindAsync(id)`, and the tournament lookup of the back-fill. */
  function FindTournament(tournaments: seq<Tournament>, id: int): (r: Option<Tournament>)
    ensures r.Some? ==> r.value in tournaments && r.value.id == id
    ensures r.None? <==> forall t :: t in tournaments ==> t.id != id
  {
    First(tournaments, (t: Tournament) => t.id == id)
  }

  /** The group lookup by id of `GetAsync(id)` and of the back-fill. */
  function FindGroup(groups: seq<Group>, id: int): (r: Option<Group>)
    ensures r.Some? ==> r.value in groups && r.value.id == id
    ensures r.None? <==> forall g :: g in groups ==> g.id != id
  {
    First(groups, (g: Group) => g.id == id)
  }

  /** Position of `Groups.FindAsync(id)` in the table. */
  function GroupIndex(groups: seq<Group>, id: int): (r: Option<nat>)
    ensures r.Some? ==> r.value < |groups| && groups[r.value].id == id
    ensures r.None? <==> forall j :: 0 <= j < |groups| ==> groups[j].id != id
  {
    IndexWhere(groups, (g: Group) => g.id == id)
  }

  /** A group row as the table holds it: memberships live in their own table. */
  function Row(g: Group): (r: Group)
    ensures r.members.None?
    ensures r.(members := g.members) == g
  {
    g.(members := None)
  }

  // ---------------------------------------------------------------------
  // Join codes

  predicate CodeInUse(groups: seq<Group>, code: string) {
    exists g :: g in groups && g.code == code
  }

  /** No two groups share a join code. */
  predicate CodesUnique(groups: seq<Group>) {
    forall i, j :: 0 <= i < j < |groups| ==> groups[i].code != groups[j].code
  }

  /** The code the do/while loop settles on when the Guid source yields
      `draws` in turn: the first draw whose code no group uses, or None when
      all of them are taken. */
  function FirstFreeCode(groups: seq<Group>, draws: seq<Guid>): (r: Option<string>)
    ensures r.Some? ==> !CodeInUse(groups, r.value)
    ensures r.Some? ==> exists k :: 0 <= k < |draws| && r.value == JoinCode(draws[k]) &&
                                  forall j :: 0 <= j < k ==> CodeInUse(groups, JoinCode(draws[j]))
    ensures r.None? <==> forall k :: 0 <= k < |draws| ==> CodeInUse(groups, JoinCode(draws[k]))
    decreases |draws|
  {
    if draws == [] then None
    else if !CodeInUse(groups, JoinCode(draws[0])) then Some(JoinCode(draws[0]))
    else
      var r := FirstFreeCode(groups, draws[1..]);
      assert forall k :: 0 <= k < |draws[1..]| ==> draws[1..][k] == draws[k + 1];
      assert r.Some? ==> exists k :: 0 < k < |draws| && r.value == JoinCode(draws[k]) &&
                                     forall j :: 0 <= j < k ==> CodeInUse(groups, JoinCode(draws[j]));
      r
  }

  /** The do/while loop of `AddAsync`: draw a Guid, take the first six
      characters of its text in upper case, and retry while a group already
      has that code. The Guid source is the finite list `draws`; when it
      runs dry the loop gives up. */
  method DrawJoinCode(groups: seq<Group>, draws: seq<Guid>) returns (code: Option<string>)
    ensures code == FirstFreeCode(groups, draws)
    ensures code.Some? ==> |code.value| == 6 && !CodeInUse(groups, code.value)
    ensures code.Some? ==> forall i :: 0 <= i < 6 ==> IsUpperHexDigit(code.value[i])
  {
    var i := 0;
    var candidate := "";
    var taken := true;
    while taken
      invariant 0 <= i <= |draws|
      invariant taken ==> FirstFreeCode(groups, draws) == FirstFreeCode(groups, draws[i..])
      invariant !taken ==> 0 < i && candidate == JoinCode(draws[i - 1])
      invariant !taken ==> FirstFreeCode(groups, draws) == Some(candidate)
      decreases |draws| - i
    {
      if i == |draws| {
        return None;
      }
      candidate := JoinCode(draws[i]);
      var currentGroup := First(groups, (g: Group) => g.code == candidate);
      taken := currentGroup.Some?;
      assert draws[i..][1..] == draws[i + 1..];
      i := i + 1;
    }
    code := Some(candidate);
  }

  /** Adding a group whose code no group uses keeps codes unique. */
  lemma {:induction false} FreshCodeKeepsCodesUnique(groups: seq<Group>, g: Group)
    requires CodesUnique(groups) && !CodeInUse(groups, g.code)
    ensures CodesUnique(groups + [g])
  {
    var after := groups + [g];
    forall i, j | 0 <= i < j < |after| ensures after[i].code != after[j].code {
      assert after[i] == groups[i];
      if j == |groups| {
        assert after[i] in groups;
      } else {
        assert after[j] == groups[j];
      }
    }
  }

  // ---------------------------------------------------------------------
  // Queries

  /** Some member of the group is a user with the requested e-mail. */
  predicate HasMemberWithEmail(userGroups: seq<UserGroup>, users: seq<User>, groupId: int, email: Option<string>) {
    exists i, j :: 0 <= i < |userGroups| && 0 <= j < |users| &&
      userGroups[i].groupId == groupId && users[j].id == userGroups[i].userId && email == Some(users[j].email)
  }

  /** The filter shared by the group list and its count. */
  predicate Listed(userGroups: seq<UserGroup>, users: seq<User>, g: Group, pagination: PaginationDto) {
    HasMemberWithEmail(userGroups, users, g.id, pagination.email) && NameMatches(g.name, pagination.filter)
  }

  /** The groups the list keeps, in table order. */
  function ListedRows(groups: seq<Group>, userGroups: seq<UserGroup>, users: seq<User>, pagination: PaginationDto)
    : (r: seq<Group>)
    ensures forall g :: g in r <==> g in groups && Listed(userGroups, users, g, pagination)
  {
    Where(groups, (g: Group) => Listed(userGroups, users, g, pagination))
  }

  /** `Include(Members)`: the group with its memberships loaded. */
  function WithMembers(g: Group, userGroups: seq<UserGroup>): (r: Group)
    ensures Row(r) == Row(g)
    ensures r.members == Some(MembersOf(userGroups, g.id))
  {
    g.(members := Some(MembersOf(userGroups, g.id)))
  }

  /** The listed rows with their memberships included, in order. */
  function WithMembersAll(kept: seq<Group>, userGroups: seq<UserGroup>): (r: seq<Group>)
    ensures |r| == |kept|
    ensures forall i :: 0 <= i < |kept| ==> r[i] == WithMembers(kept[i], userGroups)
  {
    Select(kept, (g: Group) => WithMembers(g, userGroups))
  }

  /** The back-fill's rows for group `id` over the given tables: nothing when
      the group or its tournament is missing. */
  function ReconcileRows(
    groups: seq<Group>, userGroups: seq<UserGroup>, tournaments: seq<Tournament>, matches: seq<Match>,
    predictions: seq<Prediction>, id: int)
    : (r: seq<Prediction>)
    ensures FindGroup(groups, id).None? ==> r == []
    ensures FindGroup(groups, id).Some? && FindTournament(tournaments, FindGroup(groups, id).value.tournamentId).None?
      ==> r == []
  {
    match FindGroup(groups, id)
    case None => []
    case Some(g) =>
      match FindTournament(tournaments, g.tournamentId)
      case None => []
      case Some(t) => Missing(predictions, g.id, t.id, MembersOf(userGroups, g.id), MatchesOf(matches, t.id))
  }

  /** After the back-fill of group `id`, every membership of that group
      (active or not) has a prediction for every match of its tournament,
      and the rows added are exactly the missing pairs. */
  lemma {:induction false} ReconcileCovers(
    groups: seq<Group>, userGroups: seq<UserGroup>, tournaments: seq<Tournament>, matches: seq<Match>,
    predictions: seq<Prediction>, id: int, g: Group, t: Tournament)
    requires FindGroup(groups, id) == Some(g)
    requires FindTournament(tournaments, g.tournamentId) == Some(t)
    ensures var rows := ReconcileRows(groups, userGroups, tournaments, matches, predictions, id);
      && (forall u, m :: u in MembersOf(userGroups, id) && m in MatchesOf(matches, t.id) ==>
            HasPrediction(predictions + rows, id, m.id, u.userId, t.id))
      && (forall p :: p in rows ==>
            && p == NewPrediction(id, p.matchId, p.userId, t.id)
            && (exists u :: u in userGroups && u.groupId == id && u.userId == p.userId)
            && (exists m :: m in matches && m.tournamentId == t.id && m.id == p.matchId)
            && !HasPrediction(predictions, id, p.matchId, p.userId, t.id))
  {
    var members, ms := MembersOf(userGroups, id), MatchesOf(matches, t.id);
    MissingCovers(predictions, id, t.id, members, ms);
    MissingExact(predictions, id, t.id, members, ms);
  }

  /** A second back-fill of the same group over unchanged memberships,
      matches, groups and tournaments adds nothing, so nothing is saved. */
  lemma {:induction false} ReconcileIdempotent(
    groups: seq<Group>, userGroups: seq<UserGroup>, tournaments: seq<Tournament>, matches: seq<Match>,
    predictions: seq<Prediction>, id: int)
    ensures var after := predictions + ReconcileRows(groups, userGroups, tournaments, matches, predictions, id);
      ReconcileRows(groups, userGroups, tournaments, matches, after, id) == []
  {
    match FindGroup(groups, id)
    case None =>
    case Some(g) =>
      match FindTournament(tournaments, g.tournamentId)
      case None =>
      case Some(t) =>
        MissingIdempotent(predictions, g.id, t.id, MembersOf(userGroups, g.id), MatchesOf(matches, t.id));
  }

  class GroupsRepository {
    const context: DataContext

    constructor (context: DataContext)
      ensures this.context == context
    {
      this.context := context;
    }

    /** `AddAsync`: an unknown administrator fails with ERR013, checked
        before the tournament, which fails with ERR009; neither inserts
        anything. Otherwise a join code is drawn and the group is created
        active, with the administrator as its only, active, member and the
        photo rule's image; the group row and the membership row are
        inserted when the save succeeds. */
    method AddAsync(dto: GroupDto, draws: seq<Guid>, photoGuid: Guid, uploaded: bool, save: SaveOutcome)
      returns (r: ActionResponse<Group>)
      modifies context`groups, context`userGroups
      ensures FindUser(context.users, dto.adminId).None? ==>
        r == Failure(ERR013) && context.groups == old(context.groups) && context.userGroups == old(context.userGroups)
      ensures FindUser(context.users, dto.adminId).Some? && FindTournament(context.tournaments, dto.tournamentId).None? ==>
        r == Failure(ERR009) && context.groups == old(context.groups) && context.userGroups == old(context.userGroups)
      ensures (FindUser(context.users, dto.adminId).Some? && FindTournament(context.tournaments, dto.tournamentId).Some?
               && FirstFreeCode(old(context.groups), draws).None?) ==>
        r == Failure(CodeExhausted) && context.groups == old(context.groups)
        && context.userGroups == old(context.userGroups)
      ensures (FindUser(context.users, dto.adminId).Some? && FindTournament(context.tournaments, dto.tournamentId).Some?
               && FirstFreeCode(old(context.groups), draws).Some?) ==>
        var id := NextId(old(context.groups), GroupId);
        var membership := UserGroup(id, dto.adminId, true);
        var group := Group(id, FirstFreeCode(old(context.groups), draws).value, dto.name, dto.remarks,
          Some(NewImage(dto.image, GroupsFolder, photoGuid, uploaded)), true, dto.adminId, dto.tournamentId,
          Some([membership]));
        && r == SaveResponse(save, group)
        && context.groups == (if save.Saved? then old(context.groups) + [Row(group)] else old(context.groups))
        && context.userGroups ==
             (if save.Saved? then old(context.userGroups) + [membership] else old(context.userGroups))
      ensures r.Success? ==> |r.result.code| == 6 && !CodeInUse(old(context.groups), r.result.code)
      ensures r.Success? ==> forall i :: 0 <= i < 6 ==> IsUpperHexDigit(r.result.code[i]) && !IsAsciiLower(r.result.code[i])
      ensures r.Success? ==> r.result.isActive && r.result.members == Some([UserGroup(r.result.id, dto.adminId, true)])
      ensures r.Success? ==> forall g :: g in old(context.groups) ==> g.id != r.result.id
      ensures CodesUnique(old(context.groups)) ==> CodesUnique(context.groups)
    {
      var admin := FindUser(context.users, dto.adminId);
      if admin.None? {
        return Failure(ERR013);
      }
      var tournament := FindTournament(context.tournaments, dto.tournamentId);
      if tournament.None? {
        return Failure(ERR009);
      }
      var code := DrawJoinCode(context.groups, draws);
      if code.None? {
        return Failure(CodeExhausted);
      }
      var id := NextId(context.groups, GroupId);
      var group := Group(id, code.value, dto.name, dto.remarks, None, true, admin.value.id, tournament.value.id,
        Some([UserGroup(id, admin.value.id, true)]));
      if dto.image.Some? {
        var file := PhotoFile(photoGuid);
        var fullPath := ImagePath(GroupsFolder, file);
        if uploaded {
          group := group.(image := Some(fullPath));
        } else {
          group := group.(image := Some(""));
        }
      } else {
        group := group.(image := Some(""));
      }
      r := SaveResponse(save, group);
      if save.Saved? {
        if CodesUnique(context.groups) {
          FreshCodeKeepsCodesUnique(context.groups, Row(group));
        }
        context.groups := context.groups + [Row(group)];
        context.userGroups := context.userGroups + [UserGroup(id, admin.value.id, true)];
      }
    }

    /** `UpdateAsync`: a missing group fails with ERR014 without change.
        Otherwise name, active flag and remarks are overwritten, the image
        only when a photo is sent; code, administrator and tournament stay. */
    method UpdateAsync(dto: GroupDto, photoGuid: Guid, uploaded: bool, save: SaveOutcome)
      returns (r: ActionResponse<Group>)
      modifies context`groups
      ensures GroupIndex(old(context.groups), dto.id).None? ==>
        r == Failure(ERR014) && context.groups == old(context.groups)
      ensures GroupIndex(old(context.groups), dto.id).Some? ==>
        var k := GroupIndex(old(context.groups), dto.id).value;
        var current := old(context.groups)[k];
        var updated := current.(
          image := KeptImage(current.image, dto.image, GroupsFolder, photoGuid, uploaded),
          name := dto.name,
          isActive := dto.isActive,
          remarks := dto.remarks);
        && r == SaveResponse(save, updated)
        && context.groups == (if save.Saved? then old(context.groups)[k := updated] else old(context.groups))
      ensures r.Success? ==> exists g :: g in old(context.groups) && g.id == dto.id &&
                                    r.result.code == g.code && r.result.adminId == g.adminId &&
                                    r.result.tournamentId == g.tournamentId &&
                                    (dto.image.None? ==> r.result.image == g.image)
    {
      var index := GroupIndex(context.groups, dto.id);
      if index.None? {
        return Failure(ERR014);
      }
      var currentGroup := context.groups[index.value];
      if dto.image.Some? {
        var file := PhotoFile(photoGuid);
        var fullPath := ImagePath(GroupsFolder, file);
        if uploaded {
          currentGroup := currentGroup.(image := Some(fullPath));
        } else {
          currentGroup := currentGroup.(image := Some(""));
        }
      }
      currentGroup := currentGroup.(name := dto.name);
      currentGroup := currentGroup.(isActive := dto.isActive);
      currentGroup := currentGroup.(remarks := dto.remarks);
      r := SaveResponse(save, currentGroup);
      if save.Saved? {
        context.groups := context.groups[index.value := currentGroup];
      }
    }

    /** `GetAsync(code)`: the first group with that code, memberships not
        loaded, or ERR001. */
    function GetByCodeAsync(code: string): (r: ActionResponse<Group>)
      reads context
      ensures r.Success? <==> CodeInUse(context.groups, code)
      ensures r.Success? ==> r.result in context.groups && r.result.code == code
      ensures r.Failure? ==> r.message == ERR001
    {
      match First(context.groups, (g: Group) => g.code == code)
      case None => Failure(ERR001)
      case Some(g) => Success(g)
    }

    /** `GetAsync(id)`: the group with its memberships loaded, or ERR001. */
    function GetAsync(id: int): (r: ActionResponse<Group>)
      reads context
      ensures r.Success? <==> exists g :: g in context.groups && g.id == id
      ensures r.Success? ==> r.result.id == id && Row(r.result) in Select(context.groups, Row)
      ensures r.Success? ==> r.result.members == Some(MembersOf(context.userGroups, id))
      ensures r.Failure? ==> r.message == ERR001
    {
      match FindGroup(context.groups, id)
      case None => Failure(ERR001)
      case Some(g) =>
        SelectMembers(context.groups, Row);
        Success(WithMembers(g, context.userGroups))
    }

    /** `GetAsync(pagination)` before paging: the groups that have a member
        with the requested e-mail and whose name passes the filter, with
        their memberships loaded, ordered by name. */
    function GetPagedAsync(pagination: PaginationDto): (r: seq<Group>)
      reads context
      ensures SortedBy(r, GroupName)
      ensures forall x :: x in r ==>
        exists g :: g in context.groups && Listed(context.userGroups, context.users, g, pagination) &&
          x == WithMembers(g, context.userGroups)
      ensures forall g :: g in context.groups && Listed(context.userGroups, context.users, g, pagination) ==>
        WithMembers(g, context.userGroups) in r
      ensures |r| == |ListedRows(context.groups, context.userGroups, context.users, pagination)|
      ensures multiset(r) ==
        multiset(WithMembersAll(ListedRows(context.groups, context.userGroups, context.users, pagination), context.userGroups))
    {
      var userGroups := context.userGroups;
      var kept := ListedRows(context.groups, userGroups, context.users, pagination);
      var load := (g: Group) => WithMembers(g, userGroups);
      LoadedListing(kept, load, GroupName);
      assert Select(kept, load) == WithMembersAll(kept, userGroups);
      SortBy(Select(kept, load), GroupName)
    }

    /** `GetTotalRecordsAsync(pagination)`: the number of groups the same
        filter keeps, which is the length of the unpaged list. */
    function GetTotalRecordsAsync(pagination: PaginationDto): (r: nat)
      reads context
      ensures r == |GetPagedAsync(pagination)|
    {
      |ListedRows(context.groups, context.userGroups, context.users, pagination)|
    }

    /** `GetAllAsync()`: exactly the active groups, ordered by name. */
    function GetAllAsync(): (r: seq<Group>)
      reads context
      ensures SortedBy(r, GroupName)
      ensures forall g :: g in r <==> g in context.groups && g.isActive
      ensures |r| == |Where(context.groups, (g: Group) => g.isActive)|
      ensures multiset(r) == multiset(Where(context.groups, (g: Group) => g.isActive))
    {
      var groups := context.groups;
      var active := (g: Group) => g.isActive;
      OrderedCount(groups, active, GroupName);
      SortBy(Where(groups, active), GroupName)
    }

    /** `CheckPredictionsForAllMatchesAsync(id)`: back-fills the missing
        predictions of the group and saves them as one batch; existing
        predictions are kept as they are, and nothing is saved when nothing
        is missing or when the group or its tournament does not exist. */
    method CheckPredictionsForAllMatchesAsync(id: int)
      modifies context`predictions
      ensures context.predictions == old(context.predictions) +
        ReconcileRows(context.groups, context.userGroups, context.tournaments, context.matches,
          old(context.predictions), id)
    {
      var group := FindGroup(context.groups, id);
      if group.None? {
        return;
      }
      var tournament := FindTournament(context.tournaments, group.value.tournamentId);
      if tournament.None? {
        return;
      }
      var newPredictions := StagePredictions(context.predictions, group.value.id, tournament.value.id,
        MembersOf(context.userGroups, group.value.id), MatchesOf(context.matches, tournament.value.id));
      if |newPredictions| > 0 {
        context.predictions := context.predictions + newPredictions;
      }
    }
  }
}
