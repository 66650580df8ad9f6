/** The game service: the repository's list, and lookup by id that throws when nothing is found. */
module GameService {
  import opened Js
  import opened Entities
  import opened GameRepository

  /** The message thrown for an unknown id. */
  function NotFound(id: int): string {
    NotFoundMessage("Game", id)
  }

  /** `getAllGames`: the repository's list as it is. */
  method GetAllGames(db: GameStore) returns (r: seq<Game>)
    ensures r == db.games
  {
    r := db.GetAllGames();
  }

  /** `getGameById`: the first game with that id, or the error naming the id. */
  method GetGameById(db: GameStore, id: int) returns (r: Result<Game>)
    ensures r.Ok? <==> exists g :: g in db.games && g.id == Some(id)
    ensures r.Ok? ==> r == Ok(FirstMatch(db.games, HasId(id)).value) && r.value.id == Some(id)
    ensures r.Err? ==> r.message == NotFound(id)
  {
    var found := db.GetGameById(id);
    if found.None? {
      return Err(NotFound(id));
    }
    return Ok(found.value);
  }
}
