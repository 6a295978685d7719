/** Properties of the catalogue across requests: what a later GET sees
    after a POST, PUT or DELETE, idempotent delete, and the id scheme
    (id = position + 1) that POST and PUT keep and DELETE can break. */
module Properties {
  import opened Games
  import opened Handlers

  /** The record at position i carries id i + 1. */
  ghost predicate IdsSequential(games: seq<GameDto>)
  {
    forall i :: 0 <= i < |games| ==> games[i].id == i + 1
  }

  /** While ids are sequential, the record with id n sits at position n - 1. */
  lemma {:induction false} SequentialLookup(games: seq<GameDto>, id: int)
    requires IdsSequential(games)
    ensures FindIndex(games, id) == if 1 <= id <= |games| then id - 1 else -1
  {
    if 1 <= id <= |games| {
      assert games[id - 1].id == id;
    }
  }

  /** POST appends id length + 1 at position length, so the scheme holds on. */
  lemma {:induction false} CreateKeepsIdsSequential(games: seq<GameDto>, newGame: CreateGameDto)
    requires IdsSequential(games)
    ensures IdsSequential(CreateGame(games, newGame).games)
  {
  }

  /** PUT keeps the path id in the slot it rewrites, so the scheme holds on. */
  lemma {:induction false} UpdateKeepsIdsSequential(games: seq<GameDto>, id: int, updateGame: UpdateGameDto)
    requires IdsSequential(games)
    ensures IdsSequential(UpdateGame(games, id, updateGame).games)
  {
  }

  /** Cutting out the one record that carries the id. */
  lemma {:induction false} RemoveAllCut(before: seq<GameDto>, g: GameDto, after: seq<GameDto>)
    requires Matches(before, g.id) == 0 && Matches(after, g.id) == 0
    ensures RemoveAll(before + [g] + after, g.id) == before + after
  {
    RemoveAllAppend(before + [g], after, g.id);
    RemoveAllAppend(before, [g], g.id);
    assert RemoveAll([g], g.id) == [] by {
      assert [g][1..] == [];
    }
  }

  /** With sequential ids the id k + 1 is held by position k alone, so
      deleting it cuts exactly that slot out. */
  lemma {:induction false} RemoveSequentialSlot(games: seq<GameDto>, k: nat)
    requires IdsSequential(games) && k < |games|
    ensures RemoveAll(games, k + 1) == games[..k] + games[k + 1..]
  {
    var before, after := games[..k], games[k + 1..];
    forall i | 0 <= i < |before| ensures before[i].id != k + 1 {
      assert before[i] == games[i];
    }
    forall i | 0 <= i < |after| ensures after[i].id != k + 1 {
      assert after[i] == games[k + 1 + i];
    }
    assert games == before + [games[k]] + after;
    RemoveAllCut(before, games[k], after);
  }

  /** DELETE keeps the id scheme exactly when it removes nothing or the
      last record; deleting any other present id leaves a gap. */
  lemma {:induction false} DeleteKeepsIdsSequentialIff(games: seq<GameDto>, id: int)
    requires IdsSequential(games)
    ensures IdsSequential(DeleteGame(games, id).games) <==> !(1 <= id < |games|)
  {
    var after := DeleteGame(games, id).games;
    if 1 <= id <= |games| {
      RemoveSequentialSlot(games, id - 1);
      if id < |games| {
        assert after[id - 1] == games[id];
      } else {
        assert after == games[..id - 1];
      }
    } else {
      assert Matches(games, id) == 0 by {
        assert forall i :: 0 <= i < |games| ==> games[i].id != id;
      }
    }
  }

  /** On the seed, deleting id 2 breaks the scheme. */
  lemma {:induction false} DeleteBreaksSeedIds()
    ensures !IdsSequential(DeleteGame(Seed(), 2).games)
  {
  }

  /** A GET of the id a POST just assigned sees the new record only when no
      earlier record already had that id; otherwise it sees the earlier one. */
  lemma {:induction false} CreateThenGet(games: seq<GameDto>, newGame: CreateGameDto)
    ensures var after := CreateGame(games, newGame).games;
      GetGame(after, |games| + 1) ==
        if FindIndex(games, |games| + 1) == -1 then Ok(NewGame(games, newGame))
        else GetGame(games, |games| + 1)
  {
  }

  /** While ids are sequential, the POST/GET round trip holds. */
  lemma {:induction false} CreateThenGetSequential(games: seq<GameDto>, newGame: CreateGameDto)
    requires IdsSequential(games)
    ensures GetGame(CreateGame(games, newGame).games, |games| + 1) == Ok(NewGame(games, newGame))
  {
  }

  /** After a PUT, a GET of the same id sees exactly the payload with the
      path id; a PUT of an absent id leaves it absent. */
  lemma {:induction false} UpdateThenGet(games: seq<GameDto>, id: int, updateGame: UpdateGameDto)
    ensures GetGame(UpdateGame(games, id, updateGame).games, id) ==
      if FindIndex(games, id) == -1 then NotFound
      else Ok(UpdatedGame(id, updateGame))
  {
  }

  /** After a DELETE, a GET of that id is 404. */
  lemma {:induction false} DeleteThenGet(games: seq<GameDto>, id: int)
    ensures GetGame(DeleteGame(games, id).games, id) == NotFound
  {
  }

  /** A second DELETE of the same id answers 204 again and changes nothing. */
  lemma {:induction false} DeleteIdempotent(games: seq<GameDto>, id: int)
    ensures var once := DeleteGame(games, id).games;
      DeleteGame(once, id) == Step(once, NoContent)
  {
  }

  /** On the seed, DELETE /games/2 leaves the first, third and fourth records. */
  lemma {:induction false} SeedWithoutTwo()
    ensures DeleteGame(Seed(), 2).games == [Seed()[0], Seed()[2], Seed()[3]]
  {
  }

  /** A POST that repeats an id already in the list appends a record that
      GET and PUT of that id never reach: GET still returns the earlier
      record, and PUT rewrites the earlier one and leaves the new one alone. */
  lemma {:induction false} CreateShadowedByEarlierId(games: seq<GameDto>, newGame: CreateGameDto, updateGame: UpdateGameDto)
    requires FindIndex(games, |games| + 1) != -1
    ensures var id := |games| + 1;
      var afterCreate := CreateGame(games, newGame).games;
      var afterUpdate := UpdateGame(afterCreate, id, updateGame).games;
      && afterCreate[|games|].id == id
      && GetGame(afterCreate, id) == GetGame(games, id)
      && afterUpdate[FindIndex(games, id)] == UpdatedGame(id, updateGame)
      && afterUpdate[|games|] == afterCreate[|games|]
  {
    var id := |games| + 1;
    var afterCreate := CreateGame(games, newGame).games;
    var k := FindIndex(games, id);
    forall i | 0 <= i < |games| ensures afterCreate[i] == games[i] {
      assert afterCreate[i] == afterCreate[..|games|][i];
    }
    assert FindIndex(afterCreate, id) == k;
  }

  /** Ids are not unique: from the seed, deleting id 2 and then creating a
      record gives a second record with id 4. A GET of 4 still returns the
      seeded Minecraft record, and a PUT of 4 rewrites that one and leaves
      the new record alone. */
  lemma {:induction false} DuplicateIdAfterDeleteThenCreate(newGame: CreateGameDto, updateGame: UpdateGameDto)
    ensures var afterDelete := DeleteGame(Seed(), 2).games;
      var afterCreate := CreateGame(afterDelete, newGame).games;
      var afterUpdate := UpdateGame(afterCreate, 4, updateGame).games;
      && |afterCreate| == 4
      && afterCreate[2].id == 4 && afterCreate[3].id == 4
      && GetGame(afterCreate, 4) == Ok(Seed()[3])
      && afterUpdate[2] == UpdatedGame(4, updateGame)
      && afterUpdate[3] == afterCreate[3]
  {
    SeedWithoutTwo();
    var afterDelete := DeleteGame(Seed(), 2).games;
    assert FindIndex(afterDelete, 4) == 2;
    CreateShadowedByEarlierId(afterDelete, newGame, updateGame);
  }
}
