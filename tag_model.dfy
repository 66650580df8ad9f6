/** `new Tag(...)`: the label guard and the fields a fresh tag starts with. */
module TagModel {
  import opened Js
  import opened Entities

  /** The object passed to the `Tag` constructor; a missing property is `None`. */
  datatype TagInput = TagInput(id: Option<int>, tag: Option<string>)

  /** `Tag.validate`: the error message it throws, if any. */
  function Validate(input: TagInput): (r: Option<string>)
    ensures r.None? <==> StringTruthy(input.tag)
    ensures r.Some? ==> r.value == "Tag is required."
  {
    if !StringTruthy(input.tag) || input.tag == Some("") then Some("Tag is required.") else None
  }

  /** `new Tag(input)`, where `now` is the `Date` object created for `createdAt`. A new tag
      keeps the given id and label, has no games and has never been updated. */
  function NewTag(input: TagInput, now: Stamp): (r: Result<Tag>)
    ensures r.Err? <==> !StringTruthy(input.tag)
    ensures r.Err? ==> r.message == "Tag is required."
    ensures r.Ok? ==> r.value.id == input.id && r.value.tag == input.tag.value
    ensures r.Ok? ==> r.value.games == [] && r.value.createdAt == now && r.value.updatedAt == Null
  {
    match Validate(input)
    case Some(message) => Err(message)
    case None => Ok(Tag(input.id, input.tag.value, [], now, Null))
  }

  /** Two tags constructed separately are never equal, even with the same label: each
      carries its own `createdAt` object. */
  lemma SeparateTagsNeverEqual(a: TagInput, b: TagInput, first: Stamp, second: Stamp)
    requires first != second
    requires NewTag(a, first).Ok? && NewTag(b, second).Ok?
    ensures TagEquals(NewTag(a, first).value, NewTag(b, second).value) == Ok(false)
  {
  }
}
