# Fantasy backend: repositories, seed and entity rules

This project models the data-access core of the Fantasy football-prediction
backend, written in Dafny, and proves properties of that model:

- the three repositories that create, update and list **teams**, **tournaments** and
  **groups** (prediction leagues that users join with a six-character code);
- the group back-fill `CheckPredictionsForAllMatchesAsync`: afterwards every membership of
  the group has a prediction for each match of the group's tournament. An empty prediction
  is added only where none existed;
- `SeedDb`, which fills an empty database with the countries and one national team per
  country, plus five Argentine clubs;
- the derived properties (`ImageFull`, `TeamsCount`, ...) and the validation attributes of
  `Team`, `Tournament` and `UserDTO`.

The database context (`Data.DataContext`) is a class with one `seq` field per table.
Each repository is a class holding that context. An operation that saves changes is a
`method`:

- its `modifies` clause names only the tables it writes;
- its `ensures` gives the whole new table and the `ActionResponse` it returns.

Read-only operations are functions of the tables. They return the list before paging.

Loops are modelled as methods with loop invariants, proved equal to a recursive
specification function:

- the join-code draw: the value-level method `Groups.DrawJoinCode`, against `Groups.FirstFreeCode`;
- the prediction reconciliation: the value-level method `Reconcile.StagePredictions`, against
  `Reconcile.Missing`;
- the seed loop: the class method `Seeding.SeedDb.CheckTeamsAsync`, which writes the Teams
  table, against `Seeding.SeedTeams`. Each pass of its loop is the value-level method
  `Seeding.AddCountryTeams`.

Lemmas then prove what the source promises about those functions.

The caller supplies everything the core gets from outside, in ways it cannot control:

- each freshly drawn Guid, as a value of 32 hex digits;
- whether `IFilesHelper.UploadPhoto` succeeded, as a `bool`;
- the outcome of `SaveChangesAsync`, as a `SaveOutcome`: saved, `DbUpdateException`, or
  another exception with its message;
- whether a flag file exists, as a function;
- the rows the countries SQL script inserts, supplied as a list of rows.

Rows the model itself writes carry no loaded navigation collections (`None`); no contract
demands this of the tables a database starts with. A query that includes a collection
yields the entity with that collection `Some(...)`.

Two behaviours of the code are worth stating:

- The back-fill visits **every** membership of the group, active or not, because the
  code iterates `group.Members` without a filter. `Groups.ReconcileCovers` is stated
  over all memberships.
- `TournamentsRepository.UpdateAsync` clears the image to the empty string when the DTO
  carries no photo. Teams and groups keep their current image in that case.

## Model

| member | source | states |
|---|---|---|
| Common.SaveResponse | Fantasy.Backend/Repositories/Implementations/TeamsRepository.cs:67-92 | success exactly when the save went through, with the entity as result; a `DbUpdateException` becomes ERR003, any other exception its own message |
| Text.ToLower | Fantasy.Backend/Repositories/Implementations/TeamsRepository.cs:221 | same length, each character lower-cased, no upper-case ASCII letter left |
| Text.ToUpper | Fantasy.Backend/Repositories/Implementations/GroupsRepository.cs:102 | same length, each character upper-cased, no lower-case ASCII letter left |
| Text.ContainsIffOccurs | Fantasy.Backend/Repositories/Implementations/TeamsRepository.cs:221 | the left-to-right scan reports containment exactly when the substring occurs at some position |
| Text.StrLeTotal | Fantasy.Backend/Repositories/Implementations/TeamsRepository.cs:182 | the name order used by `OrderBy` compares any two names |
| Text.StrLeTransitive | Fantasy.Backend/Repositories/Implementations/TeamsRepository.cs:182 | the name order is transitive |
| Queries.Where | Fantasy.Backend/Repositories/Implementations/TeamsRepository.cs:98 | exactly the rows that satisfy the predicate are kept, and the result is no longer than the table |
| Queries.WhereMultiset | Fantasy.Backend/Repositories/Implementations/TeamsRepository.cs:98 | each kept row keeps its multiplicity, and each dropped row has none |
| Queries.WhereAppend | Fantasy.Backend/Repositories/Implementations/TeamsRepository.cs:98 | filtering distributes over concatenation; `Seeding.SeedTeamsOfCountry` uses this to split the seeded teams country by country |
| Queries.SortBy | Fantasy.Backend/Repositories/Implementations/TeamsRepository.cs:99 | sorted by the key and a permutation of its input |
| Queries.SortByMembers | Fantasy.Backend/Repositories/Implementations/TournamentsRepository.cs:91 | ordering keeps exactly the rows it is given |
| Queries.OrderedCount | Fantasy.Backend/Repositories/Implementations/TeamsRepository.cs:234-249 | the ordered filtered list has the filtered rows and the same length, so the total equals the number listed |
| Queries.LoadedListing | Fantasy.Backend/Repositories/Implementations/TournamentsRepository.cs:95-116 | loading-then-ordering yields the loaded form of every kept row, nothing else, and one entry per kept row |
| Queries.NextId | Fantasy.Backend/Repositories/Implementations/TeamsRepository.cs:67-70 | the id the store assigns is positive and larger than every existing id |
| Queries.NameMatchesIff | Fantasy.Backend/Repositories/Implementations/TeamsRepository.cs:219-222 | a blank filter keeps every name; otherwise the lower-cased filter must occur in the lower-cased name |
| Guids.GuidText | Fantasy.Backend/Repositories/Implementations/TeamsRepository.cs:47 | the "D" text of a Guid: 36 characters, hyphens at 8, 13, 18 and 23, first six characters the first six hex digits |
| Guids.JoinCode | Fantasy.Backend/Repositories/Implementations/GroupsRepository.cs:102 | a join code has six characters, each an upper-case hex digit |
| Guids.JoinCodeInjectiveOnPrefix | Fantasy.Backend/Repositories/Implementations/GroupsRepository.cs:102 | two draws give the same code exactly when their first six hex digits agree |
| Text.Utf16Length | Fantasy.Shared/Entities/Team.cs:11 | the length `[MaxLength]` and `[StringLength]` measure: at least one and at most two UTF-16 code units per character, exactly one each when no character is above U+FFFF and two each when all are |
| Annotations.NameViolations | Fantasy.Shared/Entities/Team.cs:11-13 | no violation exactly when the name is not blank and at most 100 UTF-16 code units long; MaxLength and Required are each reported exactly when they fail |
| Annotations.ValidNameLength | Fantasy.Shared/Entities/Team.cs:11-13 | a valid name has at least one character and at most 100 UTF-16 code units, hence at most 100 characters |
| Annotations.RequiredHasContent | Fantasy.Shared/DTOs/UserDTO.cs:11 | a required value is present and has a character that is not white space |
| Entities.Team.Violations | Fantasy.Shared/Entities/Team.cs:11-13 | a team is valid exactly when its name is not blank and at most 100 UTF-16 code units long |
| Entities.Tournament.Violations | Fantasy.Shared/Entities/Tournament.cs:11-13 | a tournament is valid exactly when its name is not blank and at most 100 UTF-16 code units long |
| Entities.ImagePath | Fantasy.Backend/Repositories/Implementations/TeamsRepository.cs:50 | a stored photo path starts with `~` followed by `/images/{folder}/{file}` |
| Entities.ImageUrl | Fantasy.Shared/Entities/Tournament.cs:24-26 | a null or empty image shows the placeholder URL; any other image shows the host followed by the image without its first character |
| Entities.ImageUrlOfStoredPath | Fantasy.Shared/Entities/Team.cs:22-24 | a stored path is shown at host + `/images/{folder}/{file}` |
| Entities.CountOf | Fantasy.Shared/Entities/Tournament.cs:28-42 | a collection that was not loaded counts 0; a loaded one counts its elements |
| Dtos.UserDtoValidIff | Fantasy.Shared/DTOs/UserDTO.cs:11-20 | a registration is valid exactly when the password is present, not blank, 6 to 20 UTF-16 code units long, and repeated identically |
| Dtos.UserDtoViolationsNamed | Fantasy.Shared/DTOs/UserDTO.cs:11-20 | each failed rule is reported, exactly when it fails, on its own field: Required and StringLength (on the UTF-16 length) on both passwords, Compare on the confirmation |
| Data.TeamsOf | Fantasy.Backend/Repositories/Implementations/TournamentsRepository.cs:120-122 | the loaded team entries are exactly those of the tournament |
| Data.MatchesOf | Fantasy.Backend/Repositories/Implementations/GroupsRepository.cs:292-294 | the loaded matches are exactly those of the tournament |
| Data.MembersOf | Fantasy.Backend/Repositories/Implementations/GroupsRepository.cs:284-286 | the loaded memberships are exactly those of the group |
| Data.DataContext.constructor | Fantasy.Backend/Data/SeedDb.cs:20 | a freshly created database has every table empty |
| Photos.PhotoFile | Fantasy.Backend/Repositories/Implementations/TeamsRepository.cs:47-48 | the photo file name is exactly the 36-character Guid text followed by `.jpg` |
| Photos.NewImage | Fantasy.Backend/Repositories/Implementations/TeamsRepository.cs:43-65 | the image is non-empty exactly when a photo was sent and uploaded, and is then the stored path |
| Photos.KeptImage | Fantasy.Backend/Repositories/Implementations/TeamsRepository.cs:127-145 | no photo keeps the current image; a photo gives the stored path if uploaded and the empty string otherwise |
| Photos.NewImageUrl | Fantasy.Backend/Repositories/Implementations/TournamentsRepository.cs:42 | an uploaded photo is shown at host + `/images/{folder}/{guid}.jpg`, anything else at the placeholder |
| Teams.TeamsRepository.AddAsync | Fantasy.Backend/Repositories/Implementations/TeamsRepository.cs:23-93 | an unknown country gives ERR004 and no change; otherwise a team with a fresh id and the photo-rule image is appended when saved, and the save outcome decides the response |
| Teams.TeamsRepository.GetComboAsync | Fantasy.Backend/Repositories/Implementations/TeamsRepository.cs:95-101 | exactly the teams of the country, each with its multiplicity, ordered by name |
| Teams.TeamsRepository.UpdateAsync | Fantasy.Backend/Repositories/Implementations/TeamsRepository.cs:103-176 | a missing team gives ERR005, then an unknown country gives ERR004, both without change; otherwise name and country are overwritten, the image only when a photo is sent, and the row is replaced in place when saved |
| Teams.TeamsRepository.GetAllAsync | Fantasy.Backend/Repositories/Implementations/TeamsRepository.cs:178-189 | every team, as a permutation, ordered by name |
| Teams.TeamsRepository.GetAsync | Fantasy.Backend/Repositories/Implementations/TeamsRepository.cs:191-211 | succeeds exactly when a team has the id, with that team; otherwise ERR001 |
| Teams.TeamsRepository.GetPagedAsync | Fantasy.Backend/Repositories/Implementations/TeamsRepository.cs:213-232 | exactly the teams whose name passes the filter, each with its multiplicity in the table, ordered by name |
| Teams.TeamsRepository.GetTotalRecordsAsync | Fantasy.Backend/Repositories/Implementations/TeamsRepository.cs:234-249 | the total equals the length of the unpaged list for the same filter |
| Tournaments.TournamentIndex | Fantasy.Backend/Repositories/Implementations/TournamentsRepository.cs:160 | finds a position holding the id, or reports that no row has it |
| Tournaments.WithTeams | Fantasy.Backend/Repositories/Implementations/TournamentsRepository.cs:120-122 | only the team entries are loaded, and they are exactly the tournament's entries; every other count is 0 |
| Tournaments.WithTeamsAndMatches | Fantasy.Backend/Repositories/Implementations/TournamentsRepository.cs:97-101 | the loaded matches and team entries are exactly the tournament's; groups and predictions count 0 |
| Tournaments.WithTeamsAndMatchesAll | Fantasy.Backend/Repositories/Implementations/TournamentsRepository.cs:97-101 | every filtered row, in order, with its matches and team entries loaded |
| Tournaments.TournamentsRepository.AddAsync | Fantasy.Backend/Repositories/Implementations/TournamentsRepository.cs:23-85 | a new tournament has a fresh id, is inactive whatever the DTO says, has no teams and the photo-rule image, and is appended when saved |
| Tournaments.TournamentsRepository.GetComboAsync | Fantasy.Backend/Repositories/Implementations/TournamentsRepository.cs:87-93 | every active tournament, without its collections loaded, one entry per active row and nothing else (the same multiset), ordered by name |
| Tournaments.TournamentsRepository.GetPagedAsync | Fantasy.Backend/Repositories/Implementations/TournamentsRepository.cs:95-116 | every tournament whose name passes the filter, with matches and team entries loaded, nothing else, each with its multiplicity among the filtered rows, ordered by name |
| Tournaments.TournamentsRepository.GetAsync | Fantasy.Backend/Repositories/Implementations/TournamentsRepository.cs:118-139 | succeeds exactly when a tournament has the id, with its team entries loaded and no matches; otherwise ERR001 |
| Tournaments.TournamentsRepository.GetTotalRecordsAsync | Fantasy.Backend/Repositories/Implementations/TournamentsRepository.cs:141-156 | the total equals the length of the unpaged list for the same filter |
| Tournaments.TournamentsRepository.UpdateAsync | Fantasy.Backend/Repositories/Implementations/TournamentsRepository.cs:158-226 | a missing tournament gives ERR005 without change; otherwise name, active flag, remarks and image are overwritten (cleared when no photo is sent) and the row is replaced when saved |
| Groups.Row | Fantasy.Backend/Repositories/Implementations/GroupsRepository.cs:107-118 | a stored group row differs from the group only in not holding its memberships |
| Groups.FirstFreeCode | Fantasy.Backend/Repositories/Implementations/GroupsRepository.cs:98-105 | the code of the first draw that no group uses, every earlier draw being taken; none exactly when every draw is taken |
| Groups.DrawJoinCode | Fantasy.Backend/Repositories/Implementations/GroupsRepository.cs:98-105 | the retry loop settles on the first free code, which has six upper-case hex digits and is used by no group |
| Groups.FreshCodeKeepsCodesUnique | Fantasy.Backend/Repositories/Implementations/GroupsRepository.cs:98-105 | adding a group with an unused code keeps join codes unique |
| Groups.ListedRows | Fantasy.Backend/Repositories/Implementations/GroupsRepository.cs:33-38 | a group is listed exactly when it has a member with the requested e-mail and its name passes the filter |
| Groups.WithMembers | Fantasy.Backend/Repositories/Implementations/GroupsRepository.cs:53-56 | the group with exactly its memberships loaded, otherwise unchanged |
| Groups.WithMembersAll | Fantasy.Backend/Repositories/Implementations/GroupsRepository.cs:28-31 | every listed row, in order, with its memberships loaded |
| Groups.ReconcileRows | Fantasy.Backend/Repositories/Implementations/GroupsRepository.cs:284-298 | nothing is added when the group or its tournament does not exist |
| Groups.ReconcileCovers | Fantasy.Backend/Repositories/Implementations/GroupsRepository.cs:300-327 | after the back-fill every membership has a prediction for every match of the tournament; each added row is a new, empty prediction for a member and a match that had none |
| Groups.ReconcileIdempotent | Fantasy.Backend/Repositories/Implementations/GroupsRepository.cs:300-327 | a second back-fill over the same tables adds nothing |
| Groups.GroupsRepository.AddAsync | Fantasy.Backend/Repositories/Implementations/GroupsRepository.cs:76-172 | an unknown admin gives ERR013, then an unknown tournament gives ERR009, both without change; otherwise the group is created active, with a fresh id, an unused six-digit upper-hex code, the admin as sole active member and the photo-rule image; group and membership rows are appended when saved, and unique codes stay unique |
| Groups.GroupsRepository.UpdateAsync | Fantasy.Backend/Repositories/Implementations/GroupsRepository.cs:194-258 | a missing group gives ERR014 without change; otherwise name, active flag and remarks are overwritten and the image only when a photo is sent; code, admin and tournament stay |
| Groups.GroupsRepository.GetByCodeAsync | Fantasy.Backend/Repositories/Implementations/GroupsRepository.cs:261-279 | succeeds exactly when some group has the code, with such a group; otherwise ERR001 |
| Groups.GroupsRepository.GetAsync | Fantasy.Backend/Repositories/Implementations/GroupsRepository.cs:51-73 | succeeds exactly when a group has the id, with its memberships loaded; otherwise ERR001 |
| Groups.GroupsRepository.GetPagedAsync | Fantasy.Backend/Repositories/Implementations/GroupsRepository.cs:26-48 | every listed group with its memberships loaded, nothing else, each with its multiplicity among the listed rows, ordered by name |
| Groups.GroupsRepository.GetTotalRecordsAsync | Fantasy.Backend/Repositories/Implementations/GroupsRepository.cs:175-191 | the total equals the length of the unpaged list for the same e-mail and filter |
| Groups.GroupsRepository.GetAllAsync | Fantasy.Backend/Repositories/Implementations/GroupsRepository.cs:331-345 | exactly the active groups, each with its multiplicity in the table, ordered by name |
| Groups.GroupsRepository.CheckPredictionsForAllMatchesAsync | Fantasy.Backend/Repositories/Implementations/GroupsRepository.cs:282-328 | the predictions table grows by exactly the back-fill rows and existing predictions are untouched |
| Reconcile.NewPrediction | Fantasy.Backend/Repositories/Implementations/GroupsRepository.cs:311-318 | a staged prediction carries the group, match, user and tournament keys and no goals |
| Reconcile.MissingForMemberExact | Fantasy.Backend/Repositories/Implementations/GroupsRepository.cs:303-319 | for one member, the staged rows are exactly the matches without a prediction |
| Reconcile.MissingExact | Fantasy.Backend/Repositories/Implementations/GroupsRepository.cs:301-321 | the staged rows are exactly the (member, match) pairs without a prediction, in both directions |
| Reconcile.StagePredictions | Fantasy.Backend/Repositories/Implementations/GroupsRepository.cs:300-321 | the nested loops stage exactly the missing rows, in member-then-match order |
| Reconcile.MissingCovers | Fantasy.Backend/Repositories/Implementations/GroupsRepository.cs:300-327 | after appending the staged rows every pair has a prediction |
| Reconcile.CoveredStagesNothing | Fantasy.Backend/Repositories/Implementations/GroupsRepository.cs:323-327 | when every pair already has a prediction nothing is staged, so nothing is saved |
| Reconcile.MissingIdempotent | Fantasy.Backend/Repositories/Implementations/GroupsRepository.cs:300-327 | a second pass stages nothing |
| Reconcile.MissingKeepsKeysUnique | Fantasy.Backend/Repositories/Implementations/GroupsRepository.cs:300-321 | with distinct members and matches, a table without duplicate keys keeps none after the back-fill |
| Reconcile.DuplicateMemberStagesTwice | Fantasy.Backend/Repositories/Implementations/GroupsRepository.cs:301-306 | two memberships of the same user stage the same key twice, so distinct members are needed for unique keys |
| Seeding.FlagImage | Fantasy.Backend/Data/SeedDb.cs:51-71 | the national team's image is non-empty exactly when the flag file exists and uploads, and is then `~/images/teams/{Name}.jpg` |
| Seeding.FlagImageUrl | Fantasy.Backend/Data/SeedDb.cs:58-65 | a seeded flag is shown at host + `/images/teams/{Name}.jpg`, a missing one at the placeholder |
| Seeding.TeamsFor | Fantasy.Backend/Data/SeedDb.cs:40-72 | each country gets one team (six for Argentina): the five clubs in order without image, then the national team with the flag image, ids consecutive |
| Seeding.ArgentinaCount | Fantasy.Backend/Data/SeedDb.cs:40 | counts the countries named Argentina; zero exactly when none is |
| Seeding.ArgentinaAtMostOnce | Fantasy.Backend/Data/SeedDb.cs:40 | with distinct country names, the count is 1 if Argentina is present and 0 otherwise |
| Seeding.SeedTeamsCount | Fantasy.Backend/Data/SeedDb.cs:38-73 | the seed adds one team per country plus five per Argentina |
| Seeding.SeedTeamsIds | Fantasy.Backend/Data/SeedDb.cs:72-75 | the seeded teams are numbered consecutively in insertion order |
| Seeding.SeedTeamsCountries | Fantasy.Backend/Data/SeedDb.cs:42-72 | every seeded team belongs to a seeded country |
| Seeding.SeedTeamsOfCountry | Fantasy.Backend/Data/SeedDb.cs:38-73 | with distinct country ids, the teams of each country are exactly that country's block |
| Seeding.SeedIdempotent | Fantasy.Backend/Data/SeedDb.cs:25-77 | a second seed changes neither countries nor teams |
| Seeding.AddCountryTeams | Fantasy.Backend/Data/SeedDb.cs:40-72 | one loop pass appends exactly the country's teams to the pending list |
| Seeding.SeedDb.SeedAsync | Fantasy.Backend/Data/SeedDb.cs:18-23 | first the countries, then the teams are seeded, each only into an empty table |
| Seeding.SeedDb.CheckCountriesAsync | Fantasy.Backend/Data/SeedDb.cs:25-32 | the script's rows are loaded only when the Countries table is empty |
| Seeding.SeedDb.CheckTeamsAsync | Fantasy.Backend/Data/SeedDb.cs:34-77 | when the Teams table is empty it becomes the seeded teams of all countries, saved as one batch; otherwise nothing changes |

## Left out

- Paging (`Paginate` with page and record count) is not part of this model. The list operations return the full filtered, ordered list; the totals are proved equal to its length.
- Decoding the base64 photo, and the `FormatException` a malformed one raises, are left out. Only the upload's success is a parameter.
- Entity Framework's change tracker is not modelled: rows change only when the save succeeds. The `Include` of `Country`, `Admin`, `Tournament` and `User` references is also left out, because rows hold relations as ids.
- Database collation and culture-sensitive `ToLower`/`ToUpper` are modelled as ordinal ASCII case mapping and ordinal ordering. `char.IsWhiteSpace` is modelled on ASCII and Latin-1 only (tab to carriage return, space, U+0085, U+00A0); the white-space characters beyond Latin-1 (U+1680, U+2000-U+200A, U+2028, U+2029, U+202F, U+205F, U+3000) count as content.
- Prediction ids and any ids assigned inside batch saves, other than team ids, are not modelled.
- Queries.NextId: an identity column is modelled as one more than the largest id in the table, and the seeded teams as 1, 2, ... in insertion order. A real identity column never reuses a value and skips values after failed inserts, rollbacks and restarts. The model leaves the next id unchanged after a failed save, so the ids it gives are one possible assignment, not the database's.
- Entities.ImageUrl: `Image[1..]` drops one UTF-16 code unit. The model drops one character, which is the same for every stored path (they start with `~`). For an image whose first character is above U+FFFF, .NET would leave half a surrogate pair, which a Dafny string cannot hold.
- Annotations.NameViolations: the violation lists, here and in the `UserDTO` rules, name every failing attribute. They do not follow one .NET validation path: ASP.NET Core model validation runs `[Required]` first, and `Validator` stops once `[Required]` fails. Only which rules fail is promised, never their order or how a failed `[Required]` hides the others.
- Save failures in the back-fill and the seed are not modelled, because the source lets those exceptions propagate. `Database.EnsureCreatedAsync` schema creation is modelled only as the empty context.
- Groups.DrawJoinCode: the source retries without bound. The model draws from a finite list of Guids and returns `CodeExhausted` when every draw is taken. That outcome belongs to the model, not the source.
- Groups.GroupsRepository.AddAsync: each operation is modelled as running alone against the tables. A concurrent request can insert the same join code between the check and the save, and a concurrent back-fill can insert the same prediction between its existence check and its batch save. No unique index is part of this model, so `CodesUnique` and `Reconcile.MissingKeepsKeysUnique` hold only for requests that run one at a time. A store rejection of such a duplicate shows up only as the `DbUpdateFailed` outcome, which gives ERR003.
- Groups.GroupsRepository.AddAsync: the administrator lookup through the users repository is modelled as a lookup by id in the users table.
- Running the countries SQL script is modelled as the list of rows it inserts; the SQL text is not parsed.
- `AccountsController` and `CountryForm` belong to other layers and are not part of this model.
