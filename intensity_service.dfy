/** The intensity service: the repository's list in the order it asks for, and lookup by id
    that throws when nothing is found. */
module IntensityService {
  import opened Js
  import opened Entities
  import opened IntensityRepository

  /** The message thrown for an unknown id. */
  function NotFound(id: int): string {
    NotFoundMessage("Intensity", id)
  }

  /** `getAllIntensities`: asks the repository for order "asc" and returns its answer, which
      is the shared store, sorted in place. */
  method GetAllIntensities(db: IntensityStore) returns (r: seq<Intensity>)
    modifies db
    ensures r == db.intensities == Sort(Some(Asc), old(db.intensities))
  {
    r := db.GetAllIntensities(Some(Asc));
  }

  /** What the service returns is a reordering of the store with the highest order first. */
  lemma ListedHighestOrderFirst(s: seq<Intensity>)
    ensures multiset(Sort(Some(Asc), s)) == multiset(s)
    ensures forall i, j :: 0 <= i < j < |s| ==> Sort(Some(Asc), s)[i].order >= Sort(Some(Asc), s)[j].order
  {
    SortPermutes(Some(Asc), s);
    SortDirection(Some(Asc), s);
  }

  /** `getIntensityById`: the first intensity with that id, or the error naming the id. */
  method GetIntensityById(db: IntensityStore, id: int) returns (r: Result<Intensity>)
    ensures r.Ok? <==> exists i :: i in db.intensities && i.id == Some(id)
    ensures r.Ok? ==> r == Ok(FirstMatch(db.intensities, HasId(id)).value) && r.value.id == Some(id)
    ensures r.Err? ==> r.message == NotFound(id)
  {
    var found := db.GetIntensityById(id);
    if found.None? {
      return Err(NotFound(id));
    }
    return Ok(found.value);
  }
}
