/** The route-group version of the /games handlers: a static list of
    records, seeded once, that the POST, PUT and DELETE handlers change in
    place. The static field becomes a field of an object, so each object
    stands for the one list of the process. */
module GamesEndpoints {
  import opened Games
  import opened Handlers

  class GameRoutes {
    /** The shared List<GameDto>. */
    var games: seq<GameDto>

    constructor ()
      ensures games == Seed()
    {
      games := Seed();
    }

    /** GET /games */
    method GetAll() returns (r: Response)
      ensures r == ListGames(games)
    {
      r := OkList(games);
    }

    /** GET /games/{id} */
    method GetById(id: int) returns (r: Response)
      ensures r == GetGame(games, id)
    {
      var game := Find(games, id);
      if game.None? {
        r := NotFound;
      } else {
        r := Ok(game.value);
      }
    }

    /** POST /games */
    method Create(newGame: CreateGameDto) returns (r: Response)
      modifies this
      ensures games == CreateGame(old(games), newGame).games
      ensures r == CreateGame(old(games), newGame).response
    {
      var game := NewGame(games, newGame);
      games := games + [game];
      r := CreatedAtRoute(GetGameEndpointName, game.id, game);
    }

    /** PUT /games/{id} */
    method Update(id: int, updateGame: UpdateGameDto) returns (r: Response)
      modifies this
      ensures games == UpdateGame(old(games), id, updateGame).games
      ensures r == UpdateGame(old(games), id, updateGame).response
    {
      var index := FindIndex(games, id);
      if index == -1 {
        return NotFound;
      }
      games := games[index := UpdatedGame(id, updateGame)];
      r := NoContent;
    }

    /** DELETE /games/{id} */
    method Delete(id: int) returns (r: Response)
      modifies this
      ensures games == DeleteGame(old(games), id).games
      ensures r == NoContent
    {
      games := RemoveAll(games, id);
      r := NoContent;
    }
  }

  /** A client of the route group: from the seeded state, DELETE /games/2, then
      POST /games, then GET /games/4. The POST is answered with id 4 although
      a record with id 4 is still in the list, and the GET returns that older
      record, not the new one. */
  method DuplicateIdScenario(newGame: CreateGameDto) returns (created: Response, fetched: Response)
    ensures created.CreatedAtRoute? && created.routeId == 4
    ensures created.value == GameDto(4, newGame.name, newGame.genre, newGame.price, newGame.releaseDate)
    ensures fetched == Ok(Seed()[3])
  {
    var routes := new GameRoutes();
    var deleted := routes.Delete(2);
    created := routes.Create(newGame);
    fetched := routes.GetById(4);
  }
}
