/** The earlier top-level version of the /games handlers: a local list of
    records, captured by the five route lambdas and changed in place by the
    POST, PUT and DELETE ones. The local becomes a field of an object. */
module TopLevelProgram {
  import opened Games
  import opened Handlers

  class GameApp {
    /** The program's local List<GameDto>. */
    var games: seq<GameDto>

    constructor ()
      ensures games == Seed()
    {
      games := Seed();
    }

    /** GET /games */
    method GetAll() returns (r: Response)
      ensures r == ListGames(games)
    {
      r := OkList(games);
    }

    /** GET /games/{id} */
    method GetById(id: int) returns (r: Response)
      ensures r == GetGame(games, id)
    {
      var game := Find(games, id);
      if game.None? {
        r := NotFound;
      } else {
        r := Ok(game.value);
      }
    }

    /** POST /games */
    method Create(newGame: CreateGameDto) returns (r: Response)
      modifies this
      ensures games == CreateGame(old(games), newGame).games
      ensures r == CreateGame(old(games), newGame).response
    {
      var game := NewGame(games, newGame);
      games := games + [game];
      r := CreatedAtRoute(GetGameEndpointName, game.id, game);
    }

    /** PUT /games/{id} */
    method Update(id: int, updateGame: UpdateGameDto) returns (r: Response)
      modifies this
      ensures games == UpdateGame(old(games), id, updateGame).games
      ensures r == UpdateGame(old(games), id, updateGame).response
    {
      var index := FindIndex(games, id);
      if index == -1 {
        return NotFound;
      }
      games := games[index := UpdatedGame(id, updateGame)];
      r := NoContent;
    }

    /** DELETE /games/{id} */
    method Delete(id: int) returns (r: Response)
      modifies this
      ensures games == DeleteGame(old(games), id).games
      ensures r == NoContent
    {
      games := RemoveAll(games, id);
      r := NoContent;
    }
  }
}
