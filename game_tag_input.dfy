/** The tag input of the create page. It keeps the selection as plain labels and always
    offers to create a tag; creating a tag from the typed text is the same as in the game
    form's tag input (module FormTagInput). */
module GameTagInput {
  import opened Js
  import opened Views
  import opened TagSelection
  import FormTagInput

  /** `filteredTags`: available tags whose lowered label contains the lowered input and whose
      label is not selected yet. */
  function Suggestions(available: seq<TagView>, selected: seq<string>, input: string): (r: seq<TagView>)
    ensures |r| <= |available|
    ensures forall t :: t in r ==> t in available && FormTagInput.Matches(t, input) && t.tag !in selected
  {
    Filter(available, (t: TagView) => FormTagInput.Matches(t, input) && t.tag !in selected)
  }

  /** The selection as the game form's tag input sees it. */
  function AsLabels(selected: seq<string>): (r: seq<Selected>)
    ensures |r| == |selected|
    ensures forall i :: 0 <= i < |r| ==> r[i] == Label(selected[i])
  {
    if selected == [] then [] else [Label(selected[0])] + AsLabels(selected[1..])
  }

  /** Both tag inputs suggest the same tags for a selection of plain labels. */
  lemma {:induction false} SuggestionsAgree(available: seq<TagView>, selected: seq<string>, input: string)
    ensures Suggestions(available, selected, input)
         == FormTagInput.Suggestions(available, AsLabels(selected), input)
  {
    if available != [] {
      var t := available[0];
      var labels := AsLabels(selected);
      assert FormTagInput.IsSelected(labels, t.tag) <==> t.tag in selected by {
        if t.tag in selected {
          var i :| 0 <= i < |selected| && selected[i] == t.tag;
          assert SelectedLabel(labels[i]) == t.tag;
        }
      }
      SuggestionsAgree(available[1..], selected, input);
    }
  }

  /** The create option: the same test as in the game form's input, with creation always
      allowed. It is offered exactly when something is typed and no suggestion has the typed
      label up to letter case. */
  predicate CreateOptionShown(input: string, suggestions: seq<TagView>): (r: bool)
    ensures r <==> input != "" && forall t :: t in suggestions ==> ToLowerCase(t.tag) != ToLowerCase(input)
  {
    FormTagInput.NoSameLabel(input, suggestions);
    input != "" && FirstMatch(suggestions, FormTagInput.SameLabel(input)).None?
  }

  /** A chip's remove button passes its own label, and the create page's handler then drops
      every copy of it. */
  lemma ChipRemoval(selected: seq<string>, tag: string)
    requires tag in selected
    ensures tag !in RemoveTag(selected, tag)
    ensures |RemoveTag(selected, tag)| < |selected|
  {
    RemoveShrinks(selected, tag);
  }
}
