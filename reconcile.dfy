/** The prediction back-fill of `CheckPredictionsForAllMatchesAsync`: for
    every membership of a group and every match of the group's tournament,
    a prediction with unset goals is staged unless the store already holds
    one under the same (group, match, user, tournament) key. The existence
    check looks at the store only, never at the rows staged so far. */
module Reconcile {
  import opened Common
  import opened Entities

  /** The key of the store lookup for one (member, match) pair. */
  predicate IsKeyed(p: Prediction, groupId: int, matchId: int, userId: string, tournamentId: int) {
    p.groupId == groupId && p.matchId == matchId && p.userId == userId && p.tournamentId == tournamentId
  }

  /** The lookup finds a row. */
  predicate HasPrediction(predictions: seq<Prediction>, groupId: int, matchId: int, userId: string, tournamentId: int) {
    exists i :: 0 <= i < |predictions| && IsKeyed(predictions[i], groupId, matchId, userId, tournamentId)
  }

  /** The row staged for a missing pair: both goal counts unset. */
  function NewPrediction(groupId: int, matchId: int, userId: string, tournamentId: int): (p: Prediction)
    ensures IsKeyed(p, groupId, matchId, userId, tournamentId)
    ensures p.goalsLocal.None? && p.goalsVisitor.None?
  {
    Prediction(groupId, matchId, userId, tournamentId, None, None)
  }

  /** The rows the inner loop stages for one member, in match order. */
  function MissingForMember(
    predictions: seq<Prediction>, groupId: int, tournamentId: int, member: UserGroup, matches: seq<Match>)
    : (r: seq<Prediction>)
    ensures |r| <= |matches|
    decreases |matches|
  {
    if matches == [] then []
    else
      var init, last := matches[..|matches| - 1], matches[|matches| - 1];
      MissingForMember(predictions, groupId, tournamentId, member, init)
      + (if HasPrediction(predictions, groupId, last.id, member.userId, tournamentId) then []
         else [NewPrediction(groupId, last.id, member.userId, tournamentId)])
  }

  /** The rows both loops stage: members outside, matches inside. */
  function Missing(
    predictions: seq<Prediction>, groupId: int, tournamentId: int, members: seq<UserGroup>, matches: seq<Match>)
    : seq<Prediction>
    decreases |members|
  {
    if members == [] then []
    else
      var init, last := members[..|members| - 1], members[|members| - 1];
      Missing(predictions, groupId, tournamentId, init, matches)
      + MissingForMember(predictions, groupId, tournamentId, last, matches)
  }

  /** One member's staged rows are exactly the new rows of the matches the
      store has no prediction for. */
  lemma {:induction false} MissingForMemberExact(
    predictions: seq<Prediction>, groupId: int, tournamentId: int, member: UserGroup, matches: seq<Match>)
    ensures var r := MissingForMember(predictions, groupId, tournamentId, member, matches);
      && (forall p :: p in r ==>
            && p == NewPrediction(groupId, p.matchId, member.userId, tournamentId)
            && (exists m :: m in matches && m.id == p.matchId)
            && !HasPrediction(predictions, groupId, p.matchId, member.userId, tournamentId))
      && (forall m :: m in matches && !HasPrediction(predictions, groupId, m.id, member.userId, tournamentId) ==>
            NewPrediction(groupId, m.id, member.userId, tournamentId) in r)
    decreases |matches|
  {
    if matches != [] {
      var init, last := matches[..|matches| - 1], matches[|matches| - 1];
      assert forall m :: m in matches ==> m in init || m == last;
      assert forall m :: m in init ==> m in matches;
      MissingForMemberExact(predictions, groupId, tournamentId, member, init);
    }
  }

  /** The staged rows are exactly the new rows of the (member, match) pairs
      the store has no prediction for. */
  lemma {:induction false} MissingExact(
    predictions: seq<Prediction>, groupId: int, tournamentId: int, members: seq<UserGroup>, matches: seq<Match>)
    ensures var r := Missing(predictions, groupId, tournamentId, members, matches);
      && (forall p :: p in r ==>
            && p == NewPrediction(groupId, p.matchId, p.userId, tournamentId)
            && (exists u :: u in members && u.userId == p.userId)
            && (exists m :: m in matches && m.id == p.matchId)
            && !HasPrediction(predictions, groupId, p.matchId, p.userId, tournamentId))
      && (forall u, m ::
            (u in members && m in matches && !HasPrediction(predictions, groupId, m.id, u.userId, tournamentId)) ==>
            NewPrediction(groupId, m.id, u.userId, tournamentId) in r)
    decreases |members|
  {
    if members != [] {
      var init, last := members[..|members| - 1], members[|members| - 1];
      assert forall u :: u in members ==> u in init || u == last;
      assert forall u :: u in init ==> u in members;
      MissingExact(predictions, groupId, tournamentId, init, matches);
      MissingForMemberExact(predictions, groupId, tournamentId, last, matches);
    }
  }

  /** The nested `foreach` loops of the source, appending to the staged list. */
  method StagePredictions(
    predictions: seq<Prediction>, groupId: int, tournamentId: int, members: seq<UserGroup>, matches: seq<Match>)
    returns (staged: seq<Prediction>)
    ensures staged == Missing(predictions, groupId, tournamentId, members, matches)
  {
    staged := [];
    for i := 0 to |members|
      invariant staged == Missing(predictions, groupId, tournamentId, members[..i], matches)
    {
      var member := members[i];
      for j := 0 to |matches|
        invariant staged == Missing(predictions, groupId, tournamentId, members[..i], matches)
          + MissingForMember(predictions, groupId, tournamentId, member, matches[..j])
      {
        var found := HasPrediction(predictions, groupId, matches[j].id, member.userId, tournamentId);
        if !found {
          staged := staged + [NewPrediction(groupId, matches[j].id, member.userId, tournamentId)];
        }
        assert matches[..j + 1][..j] == matches[..j];
      }
      assert matches[..|matches|] == matches;
      assert members[..i + 1][..i] == members[..i];
    }
    assert members[..|members|] == members;
  }

  /** After the back-fill every (member, match) pair has its prediction. */
  lemma {:induction false} MissingCovers(
    predictions: seq<Prediction>, groupId: int, tournamentId: int, members: seq<UserGroup>, matches: seq<Match>)
    ensures forall u, m :: u in members && m in matches ==>
      HasPrediction(predictions + Missing(predictions, groupId, tournamentId, members, matches),
        groupId, m.id, u.userId, tournamentId)
  {
    var rows := Missing(predictions, groupId, tournamentId, members, matches);
    var after := predictions + rows;
    MissingExact(predictions, groupId, tournamentId, members, matches);
    forall u, m | u in members && m in matches
      ensures HasPrediction(after, groupId, m.id, u.userId, tournamentId)
    {
      if HasPrediction(predictions, groupId, m.id, u.userId, tournamentId) {
        var i :| 0 <= i < |predictions| && IsKeyed(predictions[i], groupId, m.id, u.userId, tournamentId);
        assert after[i] == predictions[i];
      } else {
        var p := NewPrediction(groupId, m.id, u.userId, tournamentId);
        var k :| 0 <= k < |rows| && rows[k] == p;
        assert after[|predictions| + k] == p;
      }
    }
  }

  lemma {:induction false} CoveredMemberStagesNothing(
    predictions: seq<Prediction>, groupId: int, tournamentId: int, member: UserGroup, matches: seq<Match>)
    requires forall m :: m in matches ==> HasPrediction(predictions, groupId, m.id, member.userId, tournamentId)
    ensures MissingForMember(predictions, groupId, tournamentId, member, matches) == []
    decreases |matches|
  {
    if matches != [] {
      var init := matches[..|matches| - 1];
      assert matches[|matches| - 1] in matches;
      assert forall m :: m in init ==> m in matches;
      CoveredMemberStagesNothing(predictions, groupId, tournamentId, member, init);
    }
  }

  /** Once every pair is covered nothing is staged. */
  lemma {:induction false} CoveredStagesNothing(
    predictions: seq<Prediction>, groupId: int, tournamentId: int, members: seq<UserGroup>, matches: seq<Match>)
    requires forall u, m :: u in members && m in matches ==>
      HasPrediction(predictions, groupId, m.id, u.userId, tournamentId)
    ensures Missing(predictions, groupId, tournamentId, members, matches) == []
    decreases |members|
  {
    if members != [] {
      var init, last := members[..|members| - 1], members[|members| - 1];
      assert last in members;
      assert forall u :: u in init ==> u in members;
      CoveredStagesNothing(predictions, groupId, tournamentId, init, matches);
      CoveredMemberStagesNothing(predictions, groupId, tournamentId, last, matches);
    }
  }

  /** A second run over the same members and matches stages nothing. */
  lemma {:induction false} MissingIdempotent(
    predictions: seq<Prediction>, groupId: int, tournamentId: int, members: seq<UserGroup>, matches: seq<Match>)
    ensures var after := predictions + Missing(predictions, groupId, tournamentId, members, matches);
      Missing(after, groupId, tournamentId, members, matches) == []
  {
    MissingCovers(predictions, groupId, tournamentId, members, matches);
    CoveredStagesNothing(predictions + Missing(predictions, groupId, tournamentId, members, matches),
      groupId, tournamentId, members, matches);
  }

  function Key(p: Prediction): (int, int, string, int) {
    (p.groupId, p.matchId, p.userId, p.tournamentId)
  }

  /** No two predictions share a lookup key. */
  predicate UniqueKeys(predictions: seq<Prediction>) {
    forall i, j :: 0 <= i < j < |predictions| ==> Key(predictions[i]) != Key(predictions[j])
  }

  predicate DistinctUsers(members: seq<UserGroup>) {
    forall i, j :: 0 <= i < j < |members| ==> members[i].userId != members[j].userId
  }

  predicate DistinctMatches(matches: seq<Match>) {
    forall i, j :: 0 <= i < j < |matches| ==> matches[i].id != matches[j].id
  }

  lemma {:induction false} UniqueKeysAppend(a: seq<Prediction>, b: seq<Prediction>)
    requires UniqueKeys(a) && UniqueKeys(b)
    requires forall x, y :: x in a && y in b ==> Key(x) != Key(y)
    ensures UniqueKeys(a + b)
  {
    var c := a + b;
    forall i, j | 0 <= i < j < |c| ensures Key(c[i]) != Key(c[j]) {
      if j < |a| {
        assert c[i] == a[i] && c[j] == a[j];
      } else if i >= |a| {
        assert c[i] == b[i - |a|] && c[j] == b[j - |a|];
      } else {
        assert c[i] in a && c[j] in b;
      }
    }
  }

  lemma {:induction false} MissingForMemberUnique(
    predictions: seq<Prediction>, groupId: int, tournamentId: int, member: UserGroup, matches: seq<Match>)
    requires DistinctMatches(matches)
    ensures UniqueKeys(MissingForMember(predictions, groupId, tournamentId, member, matches))
    decreases |matches|
  {
    if matches != [] {
      var init, last := matches[..|matches| - 1], matches[|matches| - 1];
      assert DistinctMatches(init) by {
        forall i, j | 0 <= i < j < |init| ensures init[i].id != init[j].id {
          assert init[i] == matches[i] && init[j] == matches[j];
        }
      }
      MissingForMemberUnique(predictions, groupId, tournamentId, member, init);
      MissingForMemberExact(predictions, groupId, tournamentId, member, init);
      var front := MissingForMember(predictions, groupId, tournamentId, member, init);
      var back := if HasPrediction(predictions, groupId, last.id, member.userId, tournamentId) then []
        else [NewPrediction(groupId, last.id, member.userId, tournamentId)];
      forall x, y | x in front && y in back ensures Key(x) != Key(y) {
        var m :| m in init && m.id == x.matchId;
        var i :| 0 <= i < |init| && init[i] == m;
        assert matches[i] == m;
      }
      UniqueKeysAppend(front, back);
    }
  }

  lemma {:induction false} MissingUnique(
    predictions: seq<Prediction>, groupId: int, tournamentId: int, members: seq<UserGroup>, matches: seq<Match>)
    requires DistinctUsers(members) && DistinctMatches(matches)
    ensures UniqueKeys(Missing(predictions, groupId, tournamentId, members, matches))
    decreases |members|
  {
    if members != [] {
      var init, last := members[..|members| - 1], members[|members| - 1];
      assert DistinctUsers(init) by {
        forall i, j | 0 <= i < j < |init| ensures init[i].userId != init[j].userId {
          assert init[i] == members[i] && init[j] == members[j];
        }
      }
      MissingUnique(predictions, groupId, tournamentId, init, matches);
      MissingExact(predictions, groupId, tournamentId, init, matches);
      MissingForMemberExact(predictions, groupId, tournamentId, last, matches);
      MissingForMemberUnique(predictions, groupId, tournamentId, last, matches);
      var front := Missing(predictions, groupId, tournamentId, init, matches);
      var back := MissingForMember(predictions, groupId, tournamentId, last, matches);
      forall x, y | x in front && y in back ensures Key(x) != Key(y) {
        var u :| u in init && u.userId == x.userId;
        var i :| 0 <= i < |init| && init[i] == u;
        assert members[i] == u;
      }
      UniqueKeysAppend(front, back);
    }
  }

  /** With distinct members and distinct matches, a store without duplicate
      keys keeps none after the back-fill, so each pair then has exactly one
      prediction. */
  lemma {:induction false} MissingKeepsKeysUnique(
    predictions: seq<Prediction>, groupId: int, tournamentId: int, members: seq<UserGroup>, matches: seq<Match>)
    requires UniqueKeys(predictions) && DistinctUsers(members) && DistinctMatches(matches)
    ensures UniqueKeys(predictions + Missing(predictions, groupId, tournamentId, members, matches))
  {
    var rows := Missing(predictions, groupId, tournamentId, members, matches);
    MissingUnique(predictions, groupId, tournamentId, members, matches);
    MissingExact(predictions, groupId, tournamentId, members, matches);
    forall x, y | x in predictions && y in rows ensures Key(x) != Key(y) {
      var i :| 0 <= i < |predictions| && predictions[i] == x;
      assert !IsKeyed(predictions[i], groupId, y.matchId, y.userId, tournamentId);
    }
    UniqueKeysAppend(predictions, rows);
  }

  /** Without distinct members the back-fill can stage the same pair twice:
      one match and the same user listed twice yield two identical rows. */
  lemma {:induction false} DuplicateMemberStagesTwice(groupId: int, tournamentId: int, userId: string, matchId: int)
    ensures var member := UserGroup(groupId, userId, true);
      var rows := Missing([], groupId, tournamentId, [member, member], [Match(matchId, tournamentId)]);
      rows == [NewPrediction(groupId, matchId, userId, tournamentId), NewPrediction(groupId, matchId, userId, tournamentId)]
      && !UniqueKeys(rows)
  {
    var member := UserGroup(groupId, userId, true);
    var ms := [Match(matchId, tournamentId)];
    var p := NewPrediction(groupId, matchId, userId, tournamentId);
    assert !HasPrediction([], groupId, matchId, userId, tournamentId);
    assert ms[..0] == [];
    assert MissingForMember([], groupId, tournamentId, member, ms) == [p];
    assert [member, member][..1] == [member];
    assert [member][..0] == [];
    assert Missing([], groupId, tournamentId, [member], ms) == [p];
    var rows := Missing([], groupId, tournamentId, [member, member], ms);
    assert rows == [p, p];
    assert Key(rows[0]) == Key(rows[1]);
  }
}
