/** What each /games handler does, as a function from the list before the
    request to the list after it and the HTTP result. Both versions of the
    handlers (the route group and the top-level program) follow it. */
module Handlers {
  import opened Games

  /** The route name the POST handler's location points at. */
  const GetGameEndpointName: string := "GetGame"

  /** The HTTP results the handlers produce. */
  datatype Response =
    | OkList(games: seq<GameDto>)                                   // 200 with the whole list
    | Ok(game: GameDto)                                             // 200 with one record
    | NotFound                                                      // 404, empty body
    | CreatedAtRoute(routeName: string, routeId: int, value: GameDto) // 201 with a location
    | NoContent                                                     // 204, empty body

  /** The list after a request, and the result returned. */
  datatype Step = Step(games: seq<GameDto>, response: Response)

  /** GET /games: the current list, as it is. */
  function ListGames(games: seq<GameDto>): (r: Response)
    ensures r.OkList? && r.games == games
  {
    OkList(games)
  }

  /** GET /games/{id}: the first record with the id, or 404. */
  function GetGame(games: seq<GameDto>, id: int): (r: Response)
    ensures r.NotFound? <==> forall i :: 0 <= i < |games| ==> games[i].id != id
    ensures !r.NotFound? ==> r.Ok? && r.game.id == id
    ensures !r.NotFound? ==> r.game == games[FindIndex(games, id)]
  {
    match Find(games, id)
    case None => NotFound
    case Some(game) => Ok(game)
  }

  /** The record POST /games appends: the next id is the list's length plus
      one, every other field comes from the payload. */
  function NewGame(games: seq<GameDto>, newGame: CreateGameDto): GameDto
  {
    GameDto(|games| + 1, newGame.name, newGame.genre, newGame.price, newGame.releaseDate)
  }

  /** The record PUT /games/{id} writes: the path id, every other field
      from the payload. */
  function UpdatedGame(id: int, updateGame: UpdateGameDto): GameDto
  {
    GameDto(id, updateGame.name, updateGame.genre, updateGame.price, updateGame.releaseDate)
  }

  /** POST /games: append one record at the end and answer 201 with it. */
  function CreateGame(games: seq<GameDto>, newGame: CreateGameDto): (s: Step)
    ensures |s.games| == |games| + 1
    ensures s.games[..|games|] == games
    ensures var g := s.games[|games|];
      && g.id == |games| + 1
      && g.name == newGame.name && g.genre == newGame.genre
      && g.price == newGame.price && g.releaseDate == newGame.releaseDate
    ensures s.response == CreatedAtRoute(GetGameEndpointName, |games| + 1, s.games[|games|])
  {
    var game := NewGame(games, newGame);
    Step(games + [game], CreatedAtRoute(GetGameEndpointName, game.id, game))
  }

  /** PUT /games/{id}: 404 and no change when no record has the id;
      otherwise the first such record is replaced by one that keeps the id
      and takes every other field from the payload, and the answer is 204. */
  function UpdateGame(games: seq<GameDto>, id: int, updateGame: UpdateGameDto): (s: Step)
    ensures |s.games| == |games|
    ensures s.response.NotFound? <==> forall i :: 0 <= i < |games| ==> games[i].id != id
    ensures s.response.NotFound? ==> s.games == games
    ensures !s.response.NotFound? ==>
      && s.response.NoContent?
      && var k := FindIndex(games, id);
      && s.games[k] == UpdatedGame(id, updateGame)
      && forall i :: 0 <= i < |games| && i != k ==> s.games[i] == games[i]
  {
    var index := FindIndex(games, id);
    if index == -1 then Step(games, NotFound)
    else
      Step(games[index := UpdatedGame(id, updateGame)], NoContent)
  }

  /** DELETE /games/{id}: every record with the id goes, the others stay in
      order, and the answer is 204 whether or not anything was removed. */
  function DeleteGame(games: seq<GameDto>, id: int): (s: Step)
    ensures s.response == NoContent
    ensures |s.games| == |games| - Matches(games, id)
    ensures forall i :: 0 <= i < |s.games| ==> s.games[i].id != id
    ensures forall g :: g in s.games <==> g in games && g.id != id
    ensures Matches(games, id) == 0 ==> s.games == games
    ensures forall i :: 0 <= i < |games| && games[i].id != id ==>
      0 <= SurvivorPosition(games, id, i) < |s.games| && s.games[SurvivorPosition(games, id, i)] == games[i]
    ensures s.games == RemoveAll(games, id)
  {
    RemoveAllMembers(games, id);
    RemoveAllPositions(games, id);
    Step(RemoveAll(games, id), NoContent)
  }
}
