/** `SeedDb`: fills an empty database with the countries of the seed script
    and, when the Teams table is empty, one national team per country plus
    five clubs for Argentina. The script is given as the rows it inserts;
    whether a country's flag file exists and whether uploading it succeeds
    are supplied by the caller. */
module Seeding {
  import opened Common
  import opened Queries
  import opened Entities
  import opened Photos
  import opened Data

  const Argentina: string := "Argentina"

  const ArgentineClubs: seq<string> := ["Talleres", "Belgrano", "Instituto", "River Plate", "Boca Juniors"]

  /** `$"{country.Name}.jpg"`. */
  function FlagFile(countryName: string): string { countryName + ".jpg" }

  /** The national team's image: the stored flag path when the flag file
      exists and its upload succeeds, and empty otherwise. */
  function FlagImage(countryName: string, flagExists: string -> bool, uploaded: string -> bool): (image: string)
    ensures image != "" <==> flagExists(countryName) && uploaded(FlagFile(countryName))
    ensures image != "" ==> image == "~/images/teams/" + countryName + ".jpg"
  {
    if flagExists(countryName) && uploaded(FlagFile(countryName)) then ImagePath(TeamsFolder, FlagFile(countryName))
    else ""
  }

  /** A seeded flag is shown at `/images/teams/{Name}.jpg` under the host. */
  lemma {:induction false} FlagImageUrl(countryName: string, flagExists: string -> bool, uploaded: string -> bool)
    ensures flagExists(countryName) && uploaded(FlagFile(countryName)) ==>
      ImageUrl(Some(FlagImage(countryName, flagExists, uploaded))) == Host + "/images/teams/" + countryName + ".jpg"
    ensures !(flagExists(countryName) && uploaded(FlagFile(countryName))) ==>
      ImageUrl(Some(FlagImage(countryName, flagExists, uploaded))) == NoImageUrl
  {
    ImageUrlOfStoredPath(TeamsFolder, FlagFile(countryName));
  }

  /** The five clubs the seed adds for Argentina, numbered from `id`. */
  function ArgentineClubTeams(country: Country, id: int): seq<Team> {
    [ Team(id, "Talleres", None, country.id),
      Team(id + 1, "Belgrano", None, country.id),
      Team(id + 2, "Instituto", None, country.id),
      Team(id + 3, "River Plate", None, country.id),
      Team(id + 4, "Boca Juniors", None, country.id) ]
  }

  /** The teams one pass of the loop adds for `country`, numbered from
      `id`: the five clubs first when the country is Argentina (no image),
      then the national team. */
  function TeamsFor(country: Country, flagExists: string -> bool, uploaded: string -> bool, id: int)
    : (r: seq<Team>)
    ensures |r| == if country.name == Argentina then 6 else 1
    ensures forall i :: 0 <= i < |r| ==> r[i].id == id + i && r[i].countryId == country.id
    ensures r[|r| - 1] == Team(id + |r| - 1, country.name, Some(FlagImage(country.name, flagExists, uploaded)), country.id)
    ensures country.name == Argentina ==>
      forall i :: 0 <= i < 5 ==> r[i] == Team(id + i, ArgentineClubs[i], None, country.id)
  {
    var clubs := if country.name == Argentina then ArgentineClubTeams(country, id) else [];
    clubs + [Team(id + |clubs|, country.name, Some(FlagImage(country.name, flagExists, uploaded)), country.id)]
  }

  /** The teams the loop adds for `countries`, in order, numbered from
      `firstId` as the store numbers them when it saves the batch. */
  function SeedTeams(countries: seq<Country>, flagExists: string -> bool, uploaded: string -> bool, firstId: int)
    : seq<Team>
    decreases |countries|
  {
    if countries == [] then []
    else
      var init := SeedTeams(countries[..|countries| - 1], flagExists, uploaded, firstId);
      init + TeamsFor(countries[|countries| - 1], flagExists, uploaded, firstId + |init|)
  }

  /** How many of the countries are named Argentina. */
  function ArgentinaCount(countries: seq<Country>): (n: nat)
    ensures n <= |countries|
    ensures n == 0 <==> forall c :: c in countries ==> c.name != Argentina
    decreases |countries|
  {
    if countries == [] then 0
    else
      var init := countries[..|countries| - 1];
      assert forall c :: c in countries ==> c in init || c == countries[|countries| - 1];
      assert forall c :: c in init ==> c in countries;
      ArgentinaCount(init) + (if countries[|countries| - 1].name == Argentina then 1 else 0)
  }

  /** One team per country, plus five per country named Argentina. */
  lemma {:induction false} SeedTeamsCount(
    countries: seq<Country>, flagExists: string -> bool, uploaded: string -> bool, firstId: int)
    ensures |SeedTeams(countries, flagExists, uploaded, firstId)| == |countries| + 5 * ArgentinaCount(countries)
    decreases |countries|
  {
    if countries != [] {
      SeedTeamsCount(countries[..|countries| - 1], flagExists, uploaded, firstId);
    }
  }

  predicate DistinctCountryNames(countries: seq<Country>) {
    forall i, j :: 0 <= i < j < |countries| ==> countries[i].name != countries[j].name
  }

  /** With distinct country names, at most one country is Argentina. */
  lemma {:induction false} ArgentinaAtMostOnce(countries: seq<Country>)
    requires DistinctCountryNames(countries)
    ensures ArgentinaCount(countries) == if exists c :: c in countries && c.name == Argentina then 1 else 0
    decreases |countries|
  {
    if countries != [] {
      var init, last := countries[..|countries| - 1], countries[|countries| - 1];
      assert DistinctCountryNames(init) by {
        forall i, j | 0 <= i < j < |init| ensures init[i].name != init[j].name {
          assert init[i] == countries[i] && init[j] == countries[j];
        }
      }
      ArgentinaAtMostOnce(init);
      if last.name == Argentina {
        forall c | c in init ensures c.name != Argentina {
          var i :| 0 <= i < |init| && init[i] == c;
          assert countries[i] == c;
        }
      }
      assert forall c :: c in countries ==> c in init || c == last;
      assert forall c :: c in init ==> c in countries;
    }
  }

  /** The ids run on from `firstId` without gaps. */
  lemma {:induction false} SeedTeamsIds(
    countries: seq<Country>, flagExists: string -> bool, uploaded: string -> bool, firstId: int)
    ensures forall i :: 0 <= i < |SeedTeams(countries, flagExists, uploaded, firstId)| ==>
      SeedTeams(countries, flagExists, uploaded, firstId)[i].id == firstId + i
    decreases |countries|
  {
    if countries != [] {
      var init := countries[..|countries| - 1];
      SeedTeamsIds(init, flagExists, uploaded, firstId);
      var front := SeedTeams(init, flagExists, uploaded, firstId);
      var back := TeamsFor(countries[|countries| - 1], flagExists, uploaded, firstId + |front|);
      var teams := front + back;
      forall i | 0 <= i < |teams| ensures teams[i].id == firstId + i {
        if i < |front| {
          assert teams[i] == front[i];
          assert front[i].id == firstId + i;
        } else {
          var j := i - |front|;
          assert 0 <= j < |back|;
          assert teams[i] == back[j];
          assert back[j].id == firstId + |front| + j;
        }
      }
    }
  }

  /** Every seeded team belongs to one of the countries. */
  lemma {:induction false} SeedTeamsCountries(
    countries: seq<Country>, flagExists: string -> bool, uploaded: string -> bool, firstId: int)
    ensures forall t :: t in SeedTeams(countries, flagExists, uploaded, firstId) ==>
      exists c: Country :: c in countries && t.countryId == c.id
    decreases |countries|
  {
    if countries != [] {
      var init, last := countries[..|countries| - 1], countries[|countries| - 1];
      SeedTeamsCountries(init, flagExists, uploaded, firstId);
      var front := SeedTeams(init, flagExists, uploaded, firstId);
      var back := TeamsFor(last, flagExists, uploaded, firstId + |front|);
      forall t: Team | t in front + back ensures exists c: Country :: c in countries && t.countryId == c.id {
        if t in front {
          var c :| c in init && t.countryId == c.id;
          assert c in countries;
        } else {
          var i :| 0 <= i < |back| && back[i] == t;
          assert last in countries;
        }
      }
    }
  }

  predicate DistinctCountryIds(countries: seq<Country>) {
    forall i, j :: 0 <= i < j < |countries| ==> countries[i].id != countries[j].id
  }

  function CountryTeams(teams: seq<Team>, countryId: int): seq<Team> {
    Where(teams, (t: Team) => t.countryId == countryId)
  }

  lemma {:induction false} OtherCountryTeams(
    country: Country, flagExists: string -> bool, uploaded: string -> bool, id: int, countryId: int)
    requires country.id != countryId
    ensures CountryTeams(TeamsFor(country, flagExists, uploaded, id), countryId) == []
  {
    WhereNone(TeamsFor(country, flagExists, uploaded, id), (t: Team) => t.countryId == countryId);
  }

  lemma {:induction false} OwnCountryTeams(
    country: Country, flagExists: string -> bool, uploaded: string -> bool, id: int)
    ensures CountryTeams(TeamsFor(country, flagExists, uploaded, id), country.id) ==
      TeamsFor(country, flagExists, uploaded, id)
  {
    WhereAll(TeamsFor(country, flagExists, uploaded, id), (t: Team) => t.countryId == country.id);
  }

  lemma {:induction false} NoCountryTeams(
    countries: seq<Country>, flagExists: string -> bool, uploaded: string -> bool, firstId: int, countryId: int)
    requires forall c :: c in countries ==> c.id != countryId
    ensures CountryTeams(SeedTeams(countries, flagExists, uploaded, firstId), countryId) == []
  {
    var teams := SeedTeams(countries, flagExists, uploaded, firstId);
    SeedTeamsCountries(countries, flagExists, uploaded, firstId);
    forall i | 0 <= i < |teams| ensures teams[i].countryId != countryId {
      assert teams[i] in teams;
    }
    WhereNone(teams, (t: Team) => t.countryId == countryId);
  }

  lemma {:induction false} CountryTeamsAppend(a: seq<Team>, b: seq<Team>, countryId: int)
    ensures CountryTeams(a + b, countryId) == CountryTeams(a, countryId) + CountryTeams(b, countryId)
  {
    WhereAppend(a, b, (t: Team) => t.countryId == countryId);
  }

  /** With distinct country ids, the seeded teams of each country are exactly
      the teams its pass of the loop adds: its national team, named after it,
      and for Argentina the five clubs before it. */
  lemma {:induction false} SeedTeamsOfCountry(
    countries: seq<Country>, flagExists: string -> bool, uploaded: string -> bool, firstId: int, k: int)
    requires DistinctCountryIds(countries) && 0 <= k < |countries|
    ensures exists id :: CountryTeams(SeedTeams(countries, flagExists, uploaded, firstId), countries[k].id) ==
                         TeamsFor(countries[k], flagExists, uploaded, id)
    decreases |countries|
  {
    var init, last := countries[..|countries| - 1], countries[|countries| - 1];
    var front := SeedTeams(init, flagExists, uploaded, firstId);
    var id := firstId + |front|;
    var back := TeamsFor(last, flagExists, uploaded, id);
    var cid := countries[k].id;
    assert SeedTeams(countries, flagExists, uploaded, firstId) == front + back;
    CountryTeamsAppend(front, back, cid);
    if k == |countries| - 1 {
      forall c | c in init ensures c.id != cid {
        var i :| 0 <= i < |init| && init[i] == c;
        assert countries[i] == c;
      }
      NoCountryTeams(init, flagExists, uploaded, firstId, cid);
      OwnCountryTeams(last, flagExists, uploaded, id);
      assert CountryTeams(front + back, cid) == back;
    } else {
      assert DistinctCountryIds(init) by {
        forall i, j | 0 <= i < j < |init| ensures init[i].id != init[j].id {
          assert init[i] == countries[i] && init[j] == countries[j];
        }
      }
      assert init[k] == countries[k];
      SeedTeamsOfCountry(init, flagExists, uploaded, firstId, k);
      OtherCountryTeams(last, flagExists, uploaded, id, cid);
      var j :| CountryTeams(front, cid) == TeamsFor(countries[k], flagExists, uploaded, j);
      assert CountryTeams(front + back, cid) == TeamsFor(countries[k], flagExists, uploaded, j);
    }
  }

  /** The Teams table after `CheckTeamsAsync`: the seeded teams, numbered
      from 1, when it was empty, and untouched otherwise. */
  function TeamsAfterSeed(countries: seq<Country>, teams: seq<Team>, flagExists: string -> bool, uploaded: string -> bool)
    : seq<Team>
  {
    if teams == [] then SeedTeams(countries, flagExists, uploaded, 1) else teams
  }

  /** The Countries table after `CheckCountriesAsync`. */
  function CountriesAfterSeed(countries: seq<Country>, script: seq<Country>): seq<Country> {
    if countries == [] then script else countries
  }

  /** Seeding an already seeded database changes nothing. */
  lemma {:induction false} SeedIdempotent(
    countries: seq<Country>, teams: seq<Team>, script: seq<Country>, flagExists: string -> bool, uploaded: string -> bool)
    ensures var countries1 := CountriesAfterSeed(countries, script);
      var teams1 := TeamsAfterSeed(countries1, teams, flagExists, uploaded);
      && CountriesAfterSeed(countries1, script) == countries1
      && TeamsAfterSeed(countries1, teams1, flagExists, uploaded) == teams1
  {
    var countries1 := CountriesAfterSeed(countries, script);
    SeedTeamsCount(countries1, flagExists, uploaded, 1);
  }

  /** One pass of the `CheckTeamsAsync` loop: the clubs for Argentina,
      then the national team with its flag image, appended to the pending
      rows. Each row takes the id the store will give it on save. */
  method AddCountryTeams(pending: seq<Team>, country: Country, flagExists: string -> bool, uploaded: string -> bool)
    returns (added: seq<Team>)
    ensures added == pending + TeamsFor(country, flagExists, uploaded, 1 + |pending|)
  {
    added := pending;
    if country.name == Argentina {
      added := added + [Team(1 + |added|, "Talleres", None, country.id)];
      added := added + [Team(1 + |added|, "Belgrano", None, country.id)];
      added := added + [Team(1 + |added|, "Instituto", None, country.id)];
      added := added + [Team(1 + |added|, "River Plate", None, country.id)];
      added := added + [Team(1 + |added|, "Boca Juniors", None, country.id)];
      assert added == pending + ArgentineClubTeams(country, 1 + |pending|);
    }
    var imagePath := "";
    if flagExists(country.name) {
      var file := FlagFile(country.name);
      var fullPath := ImagePath(TeamsFolder, file);
      if uploaded(file) {
        imagePath := fullPath;
      } else {
        imagePath := "";
      }
    }
    added := added + [Team(1 + |added|, country.name, Some(imagePath), country.id)];
  }

  class SeedDb {
    const context: DataContext

    constructor (context: DataContext)
      ensures this.context == context
    {
      this.context := context;
    }

    /** `SeedAsync`: the countries step, then the teams step. */
    method SeedAsync(script: seq<Country>, flagExists: string -> bool, uploaded: string -> bool)
      modifies context`countries, context`teams
      ensures context.countries == CountriesAfterSeed(old(context.countries), script)
      ensures context.teams == TeamsAfterSeed(context.countries, old(context.teams), flagExists, uploaded)
    {
      CheckCountriesAsync(script);
      CheckTeamsAsync(flagExists, uploaded);
    }

    /** `CheckCountriesAsync`: runs the script only on an empty table. */
    method CheckCountriesAsync(script: seq<Country>)
      modifies context`countries
      ensures context.countries == CountriesAfterSeed(old(context.countries), script)
    {
      if |context.countries| == 0 {
        context.countries := script;
      }
    }

    /** `CheckTeamsAsync`: on an empty Teams table, adds the teams of every
        country in table order and saves them as one batch. */
    method CheckTeamsAsync(flagExists: string -> bool, uploaded: string -> bool)
      modifies context`teams
      ensures context.teams == TeamsAfterSeed(context.countries, old(context.teams), flagExists, uploaded)
    {
      if |context.teams| == 0 {
        var countries := context.countries;
        var pending: seq<Team> := [];
        for i := 0 to |countries|
          invariant pending == SeedTeams(countries[..i], flagExists, uploaded, 1)
        {
          var country := countries[i];
          ghost var before := pending;
          pending := AddCountryTeams(pending, country, flagExists, uploaded);
          assert countries[..i + 1][..i] == countries[..i];
          assert SeedTeams(countries[..i + 1], flagExists, uploaded, 1) ==
            before + TeamsFor(country, flagExists, uploaded, 1 + |before|);
        }
        assert countries[..|countries|] == countries;
        context.teams := pending;
      }
    }
  }
}
