/** The in-memory game repository: a module-level array that starts empty, searched with
    `find` and grown with `push`. */
module GameRepository {
  import opened Js
  import opened Entities

  /** `game => game.getId() === id`; a game without an id matches no id. */
  function HasId(id: int): Game -> bool {
    (g: Game) => g.id == Some(id)
  }

  class GameStore {
    var games: seq<Game>

    /** The store as the module loads: empty. */
    constructor ()
      ensures games == []
    {
      games := [];
    }

    /** `getAllGames`: the store itself, in insertion order. */
    method GetAllGames() returns (r: seq<Game>)
      ensures r == games
    {
      r := games;
    }

    /** `getGameById`: the first game with that id, or `null`. */
    method GetGameById(id: int) returns (r: Option<Game>)
      ensures r == FirstMatch(games, HasId(id))
      ensures r.Some? ==> r.value in games && r.value.id == Some(id)
      ensures r.None? <==> forall g :: g in games ==> g.id != Some(id)
    {
      r := Find(games, HasId(id));
    }

    /** `createGame`: appends the game as given (its id is neither assigned nor changed) and
        returns it. */
    method CreateGame(g: Game) returns (r: Game)
      modifies this
      ensures games == old(games) + [g]
      ensures r == g
    {
      games := games + [g];
      r := g;
    }
  }

  /** A created game with an id not used before is found again by that id; a game created
      without an id is never found by id. */
  lemma CreatedGameIsFound(games: seq<Game>, g: Game, id: int)
    requires forall h :: h in games ==> h.id != Some(id)
    ensures FirstMatch(games + [g], HasId(id)) == (if g.id == Some(id) then Some(g) else None)
  {
    FirstMatchAppend(games, g, HasId(id));
  }
}
