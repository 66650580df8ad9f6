/** The filter bar of the games overview: the tag selection it keeps, and how the values of
    its intensity, groups and duration inputs become filter values. */
module Filters {
  import opened Js
  import opened Views
  import opened TagSelection
  import FormTagInput
  import GameTagInput

  /** The filters as the overview keeps them. */
  datatype FilterState = FilterState(
    tags: seq<string>,
    intensityId: Option<Number>,
    groups: Option<bool>,
    duration: Option<Number>)

  /** `onTagSelect`: the tag is appended to the filter's tags. */
  function OnTagSelect(f: FilterState, tag: string): (r: FilterState)
    ensures r.tags == SelectTag(f.tags, tag) && r.(tags := f.tags) == f
  {
    f.(tags := SelectTag(f.tags, tag))
  }

  /** `onTagRemove`: every copy of the tag goes; the other tags and filters stay. */
  function OnTagRemove(f: FilterState, tag: string): (r: FilterState)
    ensures tag !in r.tags
    ensures forall x :: x in r.tags <==> x in f.tags && x != tag
    ensures r.(tags := f.tags) == f
  {
    f.(tags := RemoveTag(f.tags, tag))
  }

  /** Removing a tag that was just added, and was not there before, gives the filters back. */
  lemma RemoveUndoesSelectInFilters(f: FilterState, tag: string)
    requires tag !in f.tags
    ensures OnTagRemove(OnTagSelect(f, tag), tag) == f
  {
    RemoveUndoesSelect(f.tags, tag);
  }

  /** The filter bar gives its tag input `canCreateNewTag={false}`: whatever is typed, the
      option to create a tag never appears. */
  lemma NeverOffersCreation(f: FilterState, available: seq<TagView>, input: string)
    ensures !FormTagInput.CreateOptionShown(input, FormTagInput.Suggestions(available, GameTagInput.AsLabels(f.tags), input), false)
  {
  }

  /** `e.target.value ? Number(e.target.value) : null`, the conversion of the intensity and
      the duration inputs. Only the empty value is null; a value of white space alone is the
      number 0. */
  function NumberOrNull(value: string): (r: Option<Number>)
    ensures r.None? <==> value == ""
    ensures value != "" && IsBlank(value) ==> r == Some(Finite(0))
  {
    TrimEmptyIffBlank(value);
    if value != "" then Some(ToNumber(value)) else None
  }

  /** The empty choice clears the filter, and a number written out is read back as itself:
      picking the option for intensity `id` filters on `id`. */
  lemma NumberOrNullRoundTrip(n: int)
    ensures NumberOrNull("") == None
    ensures NumberOrNull(IntToString(n)) == Some(Finite(n))
  {
    ToNumberOfIntToString(n);
  }

  /** `e.target.value === 'true' ? true : false`. Only "Ja" (the value 'true') filters on
      group games. "Beide" (the empty value) filters on individual games, exactly like
      "Neen" (the value 'false'). */
  function GroupsValue(value: string): (r: bool)
    ensures value == "true" ==> r
    ensures value == "false" || value == "" ==> !r
  {
    value == "true"
  }
}
