/** The tag service: the repository's list, and lookup by id that throws when nothing is found. */
module TagService {
  import opened Js
  import opened Entities
  import opened TagRepository

  /** The message thrown for an unknown id. */
  function NotFound(id: int): string {
    NotFoundMessage("Tag", id)
  }

  /** `getAllTags`: the repository's list as it is. */
  method GetAllTags(db: TagStore) returns (r: seq<Tag>)
    ensures r == db.tags
  {
    r := db.GetAllTags();
  }

  /** `getTagById`: the first tag with that id, or the error naming the id. */
  method GetTagById(db: TagStore, id: int) returns (r: Result<Tag>)
    ensures r.Ok? <==> exists t :: t in db.tags && t.id == Some(id)
    ensures r.Ok? ==> r == Ok(FirstMatch(db.tags, HasId(id)).value) && r.value.id == Some(id)
    ensures r.Err? ==> r.message == NotFound(id)
  {
    var found := db.GetTagById(id);
    if found.None? {
      return Err(NotFound(id));
    }
    return Ok(found.value);
  }
}
