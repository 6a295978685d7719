# GameStore in-memory game catalogue

This project models the in-memory catalogue behind the `/games` routes of the
GameStore API. The catalogue is a mutable list of `GameDto` records. It starts
with four seeded games, and five request handlers act on it:

- `GET /games` returns the whole list.
- `GET /games/{id}` returns the first record with that id, or 404.
- `POST /games` appends a record whose id is the list's length plus one.
- `PUT /games/{id}` replaces the first record with that id by the payload, keeping the id, or answers 404.
- `DELETE /games/{id}` removes every record with that id and always answers 204.

The same handlers exist twice in the repository. `GamesEndpoints.cs` has a
route group over a static list. `Program.cs` is an earlier top-level version
over a local list. Their semantics are defined once in module `Handlers`, as
functions from the list before a request to the list after it and the HTTP
result. Each version's list is a class whose field is reassigned in place:
`GamesEndpoints.GameRoutes` and `TopLevelProgram.GameApp`. Every method
states its new list and its result through the `Handlers` function.

Modules:

- `Games` (games.dfy): the records, the seed, and the three `List<T>` operations the handlers use. Two are lookups, `Find` (the first match or null) and `FindIndex` (the first match or -1). The third, `RemoveAll`, removes every match in place. The module also holds the lemmas on `RemoveAll`: the survivors keep their order and land where the count of earlier removed records puts them.
- `Handlers` (handlers.dfy): the HTTP results and the five handlers as state transitions.
- `GamesEndpoints` (endpoints.dfy): the route-group list as a class, plus a client scenario verified against its contracts.
- `TopLevelProgram` (program.dfy): the top-level program's list as a class.
- `Properties` (properties.dfy): properties across requests. These cover a GET after a POST, PUT or DELETE, idempotent delete, and the id scheme "position i holds id i + 1". POST and PUT keep that scheme. DELETE keeps it exactly when it removes nothing or only the last record. After a delete that leaves a gap, a POST can hand out an id that is already in use. GET and PUT of that id then reach only the older record.

The repository also holds later, database-backed code next to this core.
`GameDetialsDto` carries a `GenreId` instead of a genre name, and
`GenresEndpoint.cs` reads genres through Entity Framework. The modelled core
predates that. It keeps a plain list in memory, with a free-text `genre` field
and the id `Count + 1`. While ids still run 1, 2, 3, ..., deleting the last record, or an id no record has,
keeps the ids unique. After a record other than the last has been deleted,
the next id can repeat one already in use. So "GET of a created id returns the created record" holds only while no
earlier record already carries the new id. `Properties.CreateThenGet` states
when it holds, `Properties.CreateShadowedByEarlierId` says what happens
otherwise, and `Properties.DuplicateIdAfterDeleteThenCreate` shows such a case
reached from the seed.

## Model

| member | source | states |
|---|---|---|
| `Games.Seed` | GameStore.Api/Endpoints/GamesEndpoints.cs:10-15 | the list starts with four records, and the record at position i has id i + 1 |
| `Games.FindIndex` | GameStore.Api/Endpoints/GamesEndpoints.cs:63-65 | the result is the position of the first record with the id, or -1 exactly when no record has it |
| `Games.Find` | GameStore.Api/Endpoints/GamesEndpoints.cs:30-32 | the result is absent exactly when FindIndex finds nothing; otherwise it is the record at the first matching position |
| `Games.RemoveAll` | GameStore.Api/Endpoints/GamesEndpoints.cs:86 | the length drops by the number of records with the id, and the list is unchanged when none has it |
| `Games.RemoveAllMembers` | GameStore.Api/Program.cs:73 | a record survives exactly when it was in the list and its id differs |
| `Games.RemoveAllAppend` | GameStore.Api/Endpoints/GamesEndpoints.cs:86 | removing from a concatenation concatenates the removals, so survivors keep their relative order |
| `Games.RemoveAllPositions` | GameStore.Api/Program.cs:73 | every survivor of the removal sits at its old position minus the number of removed records before it |
| `Games.RemoveAllPosition` | GameStore.Api/Endpoints/GamesEndpoints.cs:86 | a surviving record at position i ends up at i minus the number of removed records before it |
| `Games.RemoveAllKeepsOrder` | GameStore.Api/Program.cs:73 | two survivors keep their relative order |
| `Handlers.ListGames` | GameStore.Api/Program.cs:17 | GET /games answers 200 with the current list, as it is |
| `Handlers.GetGame` | GameStore.Api/Program.cs:21-26 | 404 exactly when no record has the id; otherwise 200 with the first record that has it |
| `Handlers.CreateGame` | GameStore.Api/Program.cs:31-44 | one record appended at the end, with id old length + 1 and the payload's name, genre, price and date; earlier records unchanged; 201 for route GetGame with that id and record |
| `Handlers.UpdateGame` | GameStore.Api/Program.cs:48-67 | 404 and no change exactly when no record has the id; otherwise only the first match is replaced, by the path id plus the payload's fields, the length is kept and the answer is 204 |
| `Handlers.DeleteGame` | GameStore.Api/Program.cs:71-76 | always 204; every record with the id is gone, every other record stays at its old position minus the removals before it (so in order), the length drops by the number removed, nothing changes when none matched, and the result is RemoveAll's |
| `GamesEndpoints.GameRoutes.constructor` | GameStore.Api/Endpoints/GamesEndpoints.cs:10-15 | the static list holds the seed |
| `GamesEndpoints.GameRoutes.GetAll` | GameStore.Api/Endpoints/GamesEndpoints.cs:24 | returns ListGames of the current list |
| `GamesEndpoints.GameRoutes.GetById` | GameStore.Api/Endpoints/GamesEndpoints.cs:28-33 | returns GetGame of the current list, leaving the list alone |
| `GamesEndpoints.GameRoutes.Create` | GameStore.Api/Endpoints/GamesEndpoints.cs:38-57 | the new list and the result are those of CreateGame on the old list |
| `GamesEndpoints.GameRoutes.Update` | GameStore.Api/Endpoints/GamesEndpoints.cs:61-80 | the new list and the result are those of UpdateGame on the old list |
| `GamesEndpoints.GameRoutes.Delete` | GameStore.Api/Endpoints/GamesEndpoints.cs:84-89 | the new list is DeleteGame's on the old list, and the result is 204 |
| `GamesEndpoints.DuplicateIdScenario` | GameStore.Api/Endpoints/GamesEndpoints.cs:28-89 | from the seeded state, DELETE 2 then POST answers with id 4, and GET 4 then returns the seeded Minecraft record |
| `TopLevelProgram.GameApp.constructor` | GameStore.Api/Program.cs:8-13 | the local list holds the seed |
| `TopLevelProgram.GameApp.GetAll` | GameStore.Api/Program.cs:17 | returns ListGames of the current list |
| `TopLevelProgram.GameApp.GetById` | GameStore.Api/Program.cs:21-26 | returns GetGame of the current list, leaving the list alone |
| `TopLevelProgram.GameApp.Create` | GameStore.Api/Program.cs:31-44 | the new list and the result are those of CreateGame on the old list |
| `TopLevelProgram.GameApp.Update` | GameStore.Api/Program.cs:48-67 | the new list and the result are those of UpdateGame on the old list |
| `TopLevelProgram.GameApp.Delete` | GameStore.Api/Program.cs:71-76 | the new list is DeleteGame's on the old list, and the result is 204 |
| `Properties.SequentialLookup` | GameStore.Api/Endpoints/GamesEndpoints.cs:63 | while position i holds id i + 1, id n is found at position n - 1, and ids outside 1..length are not found |
| `Properties.CreateKeepsIdsSequential` | GameStore.Api/Endpoints/GamesEndpoints.cs:46-54 | POST keeps "position i holds id i + 1" |
| `Properties.UpdateKeepsIdsSequential` | GameStore.Api/Endpoints/GamesEndpoints.cs:71-77 | PUT keeps "position i holds id i + 1" |
| `Properties.RemoveSequentialSlot` | GameStore.Api/Endpoints/GamesEndpoints.cs:86 | while ids are sequential, deleting id k + 1 cuts out exactly position k |
| `Properties.DeleteKeepsIdsSequentialIff` | GameStore.Api/Endpoints/GamesEndpoints.cs:86 | while ids are sequential, DELETE keeps them sequential if and only if the id is not in 1 to length - 1 |
| `Properties.DeleteBreaksSeedIds` | GameStore.Api/Program.cs:73 | deleting id 2 from the seed breaks "position i holds id i + 1" |
| `Properties.CreateThenGet` | GameStore.Api/Endpoints/GamesEndpoints.cs:28-56 | GET of the id POST just assigned returns the new record if and only if no earlier record had that id; otherwise it returns the earlier one |
| `Properties.CreateThenGetSequential` | GameStore.Api/Program.cs:21-43 | while ids are sequential, GET of a created id returns the created record |
| `Properties.UpdateThenGet` | GameStore.Api/Endpoints/GamesEndpoints.cs:28-79 | after PUT, GET of the id returns the path id with the payload's fields; an absent id stays 404 |
| `Properties.DeleteThenGet` | GameStore.Api/Endpoints/GamesEndpoints.cs:28-88 | after DELETE, GET of the id is 404 |
| `Properties.DeleteIdempotent` | GameStore.Api/Program.cs:73-75 | a second DELETE of the same id answers 204 and leaves the list unchanged |
| `Properties.SeedWithoutTwo` | GameStore.Api/Endpoints/GamesEndpoints.cs:10-15 | deleting id 2 from the seed leaves its first, third and fourth records |
| `Properties.CreateShadowedByEarlierId` | GameStore.Api/Endpoints/GamesEndpoints.cs:30-79 | for any list that already holds id length + 1, the record a POST appends with that id is never reached: GET of the id returns what it returned before, and PUT of the id rewrites the earlier record and leaves the new one alone |
| `Properties.DuplicateIdAfterDeleteThenCreate` | GameStore.Api/Program.cs:23-75 | seed, DELETE 2, POST: two records carry id 4; GET 4 returns the seeded one, and PUT 4 rewrites it and leaves the new one alone |

## Left out

- Route registration and request plumbing are not modelled. This covers `MapGroup`, `WithName`, `WithParameterValidation`, the URL that `CreatedAtRoute` generates, the root "Hello World!" route, `app.Run()` and JSON serialisation. In place of the generated URL, the 201 result keeps the route name and the id, with the record as its body.
- Payload validation is not modelled. In the route group, `WithParameterValidation()` checks the payload's attributes before a handler runs; those attributes live in DTO files that are not part of this model.
- The top-level program in `Program.cs` maps POST and PUT with no validation at all. Any payload that deserialises reaches the handler there, including one whose `Name` or `Genre` is null. The model's `string` fields cannot be null, so records with null names or genres are not modelled.
- The route group's list is one `static readonly` field for the whole process, shared by every group that `MapGamesEndpoints` builds. The model gives each `GameRoutes` object its own seeded list, so sharing between several groups is not captured.
- Concurrent requests on the shared list are not modelled. The source takes no lock, and the model is sequential.
- `decimal` prices and `DateOnly` dates are only copied by the handlers. A price is an integer number of hundredths, so prices are assumed to have at most two decimal places, and a decimal's scale is not kept (`29.99m` and `29.990m` become the same value). A date is a (year, month, day) triple. No arithmetic or calendar rule is modelled.
- Handlers.CreateGame: ids are unbounded integers. The 32-bit `int` wrap-around of `Count + 1` is not modelled, because it needs more than two billion records.
- Handlers.ListGames: the GET /games handler hands the live list object to the serialiser. The model returns the list's current value, so aliasing between that response and later changes is not captured.
- The genres endpoint is not modelled. It is an Entity Framework query over a database context that is not part of this model.
- The database setup in `DataExtensions.cs` is not modelled. It creates a scope and runs migrations, which is I/O.
- `GameDetialsDto` has no behaviour, so nothing is stated about it.
