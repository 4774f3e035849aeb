/** The records of the fantasy-prediction schema. Navigation collections
    that Entity Framework fills only when a query includes them are
    `Option<seq<...>>`: `None` stands for a collection that was not loaded.
    Relations are kept as ids, so no record embeds its parent. */
module Entities {
  import opened Common
  import opened Text
  import opened Annotations

  const Host: string := "https://localhost:7033"
  const NoImageUrl: string := "https://localhost:7033/images/noimage.png"

  /** The relative path under which an uploaded photo is served. */
  function ImagePath(folder: string, file: string): (path: string)
    ensures |path| > 0 && path[0] == '~'
    ensures path[1..] == "/images/" + folder + "/" + file
  {
    var path := "~/images/" + folder + "/" + file;
    assert path[1..] == "/images/" + folder + "/" + file;
    path
  }

  /** `ImageFull`, shared by Team and Tournament: a missing image shows the
      placeholder, any other image is served from the host with its first
      character (the `~` of a stored path) dropped. */
  function ImageUrl(image: Option<string>): (url: string)
    ensures Host <= url
    ensures IsNullOrEmpty(image) ==> url == NoImageUrl
    ensures !IsNullOrEmpty(image) ==> |url| == |Host| + |image.value| - 1
    ensures !IsNullOrEmpty(image) ==> url[|Host|..] == image.value[1..]
  {
    if IsNullOrEmpty(image) then NoImageUrl else Host + image.value[1..]
  }

  /** A photo stored by a repository or the seed is shown at the matching
      absolute URL under the host. */
  lemma {:induction false} ImageUrlOfStoredPath(folder: string, file: string)
    ensures ImageUrl(Some(ImagePath(folder, file))) == Host + "/images/" + folder + "/" + file
  {
    assert !IsNullOrEmpty(Some(ImagePath(folder, file)));
  }

  /** `TeamsCount`, `MatchesCount`, `GroupsCount`, `PredictionsCount`. */
  function CountOf<T>(collection: Option<seq<T>>): (n: nat)
    ensures collection.None? ==> n == 0
    ensures collection.Some? ==> n == |collection.value|
  {
    match collection
    case None => 0
    case Some(items) => |items|
  }

  datatype Country = Country(id: int, name: string)

  datatype User = User(id: string, email: string)

  datatype Team = Team(id: int, name: string, image: Option<string>, countryId: int)
  {
    function ImageFull(): string { ImageUrl(image) }

    /** `Name` is required and at most 100 UTF-16 code units long. */
    function Violations(): (r: seq<Violation>)
      ensures r == [] <==> !IsNullOrWhiteSpace(Some(name)) && Utf16Length(name) <= 100
      ensures r == [] ==> 1 <= |name| <= Utf16Length(name) <= 100
    {
      var r := NameViolations("Name", name);
      assert r == [] ==> 1 <= |name| <= Utf16Length(name) <= 100 by {
        if r == [] { ValidNameLength("Name", name); }
      }
      r
    }
  }

  datatype TournamentTeam = TournamentTeam(id: int, tournamentId: int, teamId: int)

  /** Match.cs is not part of this model: only the fields the core reads. */
  datatype Match = Match(id: int, tournamentId: int)

  /** A membership: the `UserGroup` join row. */
  datatype UserGroup = UserGroup(groupId: int, userId: string, isActive: bool)

  /** Group.cs is not part of this model: the fields the repository sets. */
  datatype Group = Group(
    id: int,
    code: string,
    name: string,
    remarks: Option<string>,
    image: Option<string>,
    isActive: bool,
    adminId: string,
    tournamentId: int,
    members: Option<seq<UserGroup>>)

  /** Prediction.cs is not part of this model: the composite reference and
      the two goal counts, unset until the user submits them. */
  datatype Prediction = Prediction(
    groupId: int,
    matchId: int,
    userId: string,
    tournamentId: int,
    goalsLocal: Option<int>,
    goalsVisitor: Option<int>)

  datatype Tournament = Tournament(
    id: int,
    name: string,
    image: Option<string>,
    isActive: bool,
    remarks: Option<string>,
    tournamentTeams: Option<seq<TournamentTeam>>,
    matches: Option<seq<Match>>,
    groups: Option<seq<Group>>,
    predictions: Option<seq<Prediction>>)
  {
    function ImageFull(): string { ImageUrl(image) }

    function TeamsCount(): nat { CountOf(tournamentTeams) }

    function MatchesCount(): nat { CountOf(matches) }

    function GroupsCount(): nat { CountOf(groups) }

    function PredictionsCount(): nat { CountOf(predictions) }

    /** `Name` is required and at most 100 UTF-16 code units long. */
    function Violations(): (r: seq<Violation>)
      ensures r == [] <==> !IsNullOrWhiteSpace(Some(name)) && Utf16Length(name) <= 100
      ensures r == [] ==> 1 <= |name| <= Utf16Length(name) <= 100
    {
      var r := NameViolations("Name", name);
      assert r == [] ==> 1 <= |name| <= Utf16Length(name) <= 100 by {
        if r == [] { ValidNameLength("Name", name); }
      }
      r
    }
  }

  /** The tournament as a query returns it when it includes no collection. */
  function Unloaded(t: Tournament): (r: Tournament)
    ensures r.TeamsCount() == 0 && r.MatchesCount() == 0
    ensures r.GroupsCount() == 0 && r.PredictionsCount() == 0
    ensures r.id == t.id && r.name == t.name && r.image == t.image
    ensures r.isActive == t.isActive && r.remarks == t.remarks
  {
    t.(tournamentTeams := None, matches := None, groups := None, predictions := None)
  }
}
