/** The in-memory tag repository: a module-level array of tags seeded with four tags,
    searched with `find` and grown with `push`. */
module TagRepository {
  import opened Js
  import opened Entities
  import TagModel

  /** `tag => tag.getId() === id`. */
  function HasId(id: int): Tag -> bool {
    (t: Tag) => t.id == Some(id)
  }

  /** `currTag => currTag.getTag() === text`: exact, case-sensitive comparison. */
  function HasLabel(text: string): Tag -> bool {
    (t: Tag) => t.tag == text
  }

  /** The labels of the seeded tags, in order; their ids are 1 to 4. */
  const SeedLabels: seq<string> := ["Buiten", "Binnen", "Op een plein", "9-10 jaar"]

  /** The four tags the store starts with, each built by `new Tag(...)` with its own
      `createdAt` object from `stamps`. */
  function Seed(stamps: seq<Stamp>): (r: seq<Tag>)
    requires |stamps| == 4
    ensures |r| == 4
    ensures forall i :: 0 <= i < 4 ==>
      r[i].id == Some(i + 1) && r[i].tag == SeedLabels[i] && r[i].games == []
      && r[i].createdAt == stamps[i] && r[i].updatedAt == Null
  {
    seq(4, i requires 0 <= i < 4 =>
      TagModel.NewTag(TagModel.TagInput(Some(i + 1), Some(SeedLabels[i])), stamps[i]).value)
  }

  class TagStore {
    var tags: seq<Tag>

    /** The store as the module loads: the four seeded tags. */
    constructor (stamps: seq<Stamp>)
      requires |stamps| == 4
      ensures tags == Seed(stamps)
    {
      tags := Seed(stamps);
    }

    /** `getAllTags`: the store itself, in insertion order. */
    method GetAllTags() returns (r: seq<Tag>)
      ensures r == tags
    {
      r := tags;
    }

    /** `getTagById`: the first tag with that id, or `null`. */
    method GetTagById(id: int) returns (r: Option<Tag>)
      ensures r == FirstMatch(tags, HasId(id))
      ensures r.Some? ==> r.value in tags && r.value.id == Some(id)
      ensures r.None? <==> forall t :: t in tags ==> t.id != Some(id)
    {
      r := Find(tags, HasId(id));
    }

    /** `getTagByTag`: the first tag whose text equals the query, or `null`. */
    method GetTagByTag(text: string) returns (r: Option<Tag>)
      ensures r == FirstMatch(tags, HasLabel(text))
      ensures r.Some? ==> r.value in tags && r.value.tag == text
      ensures r.None? <==> forall t :: t in tags ==> t.tag != text
    {
      r := Find(tags, HasLabel(text));
    }

    /** `createTag`: appends the tag, with no check for an existing text, and returns it. */
    method CreateTag(t: Tag) returns (r: Tag)
      modifies this
      ensures tags == old(tags) + [t]
      ensures r == t
    {
      tags := tags + [t];
      r := t;
    }
  }

  /** After `createTag(t)`, looking up `t`'s text finds a tag; it is `t` itself unless an
      earlier tag already had that text, in which case the earlier tag keeps being found. */
  lemma CreatedTagIsFound(tags: seq<Tag>, t: Tag)
    ensures FirstMatch(tags + [t], HasLabel(t.tag)).Some?
    ensures FirstMatch(tags + [t], HasLabel(t.tag)).value.tag == t.tag
    ensures (forall u :: u in tags ==> u.tag != t.tag) ==> FirstMatch(tags + [t], HasLabel(t.tag)) == Some(t)
    ensures (exists u :: u in tags && u.tag == t.tag) ==> FirstMatch(tags + [t], HasLabel(t.tag)) == FirstMatch(tags, HasLabel(t.tag))
  {
    FirstMatchAppend(tags, t, HasLabel(t.tag));
  }

  /** Creating a tag leaves every earlier lookup by id whose answer was found unchanged. */
  lemma CreateKeepsFoundIds(tags: seq<Tag>, t: Tag, id: int)
    requires FirstMatch(tags, HasId(id)).Some?
    ensures FirstMatch(tags + [t], HasId(id)) == FirstMatch(tags, HasId(id))
  {
    FirstMatchAppend(tags, t, HasId(id));
  }
}
