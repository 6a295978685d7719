/** Records of the in-memory game catalogue and the three List<GameDto>
    operations the handlers rely on: the lookups Find and FindIndex and
    the in-place removal RemoveAll. */
module Games {

  datatype Option<T> = None | Some(value: T)

  /** A calendar date without time of day; the handlers only copy it. */
  datatype Date = Date(year: int, month: int, day: int)

  /** A catalogue record. The price is a decimal amount kept in hundredths
      of the currency unit; the handlers never compute on it. */
  datatype GameDto = GameDto(id: int, name: string, genre: string, price: int, releaseDate: Date)

  /** The body of POST /games: every field of a record except its id. */
  datatype CreateGameDto = CreateGameDto(name: string, genre: string, price: int, releaseDate: Date)

  /** The body of PUT /games/{id}: the id comes from the path. */
  datatype UpdateGameDto = UpdateGameDto(name: string, genre: string, price: int, releaseDate: Date)

  /** The four records the list starts with, numbered 1 to 4 in order. */
  function Seed(): (s: seq<GameDto>)
    ensures |s| == 4
    ensures forall i :: 0 <= i < |s| ==> s[i].id == i + 1
  {
    [ GameDto(1, "The Witcher 3: Wild Hunt", "RPG", 2999, Date(2015, 5, 19)),
      GameDto(2, "FIFA 23", "Sports", 5999, Date(2022, 9, 30)),
      GameDto(3, "Cyberpunk 2077", "Action RPG", 3999, Date(2020, 12, 10)),
      GameDto(4, "Minecraft", "Sandbox", 1999, Date(2011, 11, 18)) ]
  }

  /** List.FindIndex with the predicate `x.Id == id`: the position of the
      first record with that id, or -1 when there is none. */
  function FindIndex(games: seq<GameDto>, id: int): (r: int)
    ensures -1 <= r < |games|
    ensures r == -1 <==> forall i :: 0 <= i < |games| ==> games[i].id != id
    ensures 0 <= r ==> games[r].id == id && forall i :: 0 <= i < r ==> games[i].id != id
  {
    if |games| == 0 then -1
    else if games[0].id == id then 0
    else
      var k := FindIndex(games[1..], id);
      if k == -1 then -1 else k + 1
  }

  /** List.Find with the predicate `x.Id == id`: the first record with that
      id, or nothing (the C# null) when there is none. */
  function Find(games: seq<GameDto>, id: int): (r: Option<GameDto>)
    ensures r.None? <==> FindIndex(games, id) == -1
    ensures r.Some? ==> r.value == games[FindIndex(games, id)]
  {
    if |games| == 0 then None
    else if games[0].id == id then Some(games[0])
    else Find(games[1..], id)
  }

  /** How many records carry the id. */
  function Matches(games: seq<GameDto>, id: int): (n: nat)
    ensures n <= |games|
    ensures n == 0 <==> forall i :: 0 <= i < |games| ==> games[i].id != id
  {
    if |games| == 0 then 0
    else (if games[0].id == id then 1 else 0) + Matches(games[1..], id)
  }

  /** List.RemoveAll with the predicate `x.Id == id`: the records whose id
      differs, in their original order. */
  function RemoveAll(games: seq<GameDto>, id: int): (r: seq<GameDto>)
    ensures |r| == |games| - Matches(games, id)
    ensures Matches(games, id) == 0 ==> r == games
  {
    if |games| == 0 then []
    else if games[0].id == id then RemoveAll(games[1..], id)
    else [games[0]] + RemoveAll(games[1..], id)
  }

  /** The survivors of RemoveAll are exactly the records whose id differs. */
  lemma {:induction false} RemoveAllMembers(games: seq<GameDto>, id: int)
    ensures forall g :: g in RemoveAll(games, id) <==> g in games && g.id != id
  {
    if |games| > 0 {
      RemoveAllMembers(games[1..], id);
      assert games == [games[0]] + games[1..];
    }
  }

  /** Counting distributes over concatenation. */
  lemma {:induction false} MatchesAppend(a: seq<GameDto>, b: seq<GameDto>, id: int)
    ensures Matches(a + b, id) == Matches(a, id) + Matches(b, id)
  {
    if |a| > 0 {
      assert (a + b)[1..] == a[1..] + b;
      MatchesAppend(a[1..], b, id);
    } else {
      assert a + b == b;
    }
  }

  /** RemoveAll works piecewise: removing from a concatenation is
      concatenating the removals, so the survivors keep their order. */
  lemma {:induction false} RemoveAllAppend(a: seq<GameDto>, b: seq<GameDto>, id: int)
    ensures RemoveAll(a + b, id) == RemoveAll(a, id) + RemoveAll(b, id)
  {
    if |a| > 0 {
      var ab := a + b;
      assert ab[0] == a[0] && ab[1..] == a[1..] + b;
      RemoveAllAppend(a[1..], b, id);
      if a[0].id == id {
        calc {
          RemoveAll(ab, id);
          RemoveAll(a[1..] + b, id);
          RemoveAll(a[1..], id) + RemoveAll(b, id);
          RemoveAll(a, id) + RemoveAll(b, id);
        }
      } else {
        calc {
          RemoveAll(ab, id);
          [a[0]] + RemoveAll(a[1..] + b, id);
          [a[0]] + (RemoveAll(a[1..], id) + RemoveAll(b, id));
          ([a[0]] + RemoveAll(a[1..], id)) + RemoveAll(b, id);
          RemoveAll(a, id) + RemoveAll(b, id);
        }
      }
    } else {
      assert a + b == b;
    }
  }

  /** Where a surviving record lands: the record at position i moves down
      by the number of removed records before it. */
  function SurvivorPosition(games: seq<GameDto>, id: int, i: nat): int
    requires i <= |games|
  {
    i - Matches(games[..i], id)
  }

  lemma RemoveAllPosition(games: seq<GameDto>, id: int, i: nat)
    requires i < |games| && games[i].id != id
    ensures 0 <= SurvivorPosition(games, id, i) < |RemoveAll(games, id)|
    ensures RemoveAll(games, id)[SurvivorPosition(games, id, i)] == games[i]
  {
    assert games == games[..i] + games[i..];
    RemoveAllAppend(games[..i], games[i..], id);
    assert games[i..][0] == games[i];
  }

  /** Every survivor lands at its SurvivorPosition. */
  lemma RemoveAllPositions(games: seq<GameDto>, id: int)
    ensures forall i :: 0 <= i < |games| && games[i].id != id ==>
      0 <= SurvivorPosition(games, id, i) < |RemoveAll(games, id)| &&
      RemoveAll(games, id)[SurvivorPosition(games, id, i)] == games[i]
  {
    forall i | 0 <= i < |games| && games[i].id != id
      ensures 0 <= SurvivorPosition(games, id, i) < |RemoveAll(games, id)|
      ensures RemoveAll(games, id)[SurvivorPosition(games, id, i)] == games[i]
    {
      RemoveAllPosition(games, id, i);
    }
  }

  /** Two survivors keep their relative order. */
  lemma RemoveAllKeepsOrder(games: seq<GameDto>, id: int, i: nat, j: nat)
    requires i < j < |games| && games[i].id != id && games[j].id != id
    ensures SurvivorPosition(games, id, i) < SurvivorPosition(games, id, j)
  {
    assert games[..j] == games[..i] + games[i..j];
    MatchesAppend(games[..i], games[i..j], id);
    assert games[i..j] == [games[i]] + games[i + 1..j];
    MatchesAppend([games[i]], games[i + 1..j], id);
  }
}
