/** The tag input of the game form (also used by the filters): which available tags are
    suggested, what creating a tag from the typed text does, when the "create" option is
    offered, and what removing a chip passes on. */
module FormTagInput {
  import opened Js
  import opened Views
  import GameForm

  // ---------------------------------------------------------------------------------------
  // Suggestions
  // ---------------------------------------------------------------------------------------

  /** `tag.tag.toLowerCase().includes(tagInput.toLowerCase())`. */
  predicate Matches(tag: TagView, input: string) {
    Includes(ToLowerCase(tag.tag), ToLowerCase(input))
  }

  /** `selectedTags.some(...)`: some entry, a label or a `Tag`, has this label. */
  predicate IsSelected(selected: seq<Selected>, text: string) {
    exists i :: 0 <= i < |selected| && SelectedLabel(selected[i]) == text
  }

  /** The `filteredTags` the effect computes: available tags that match the input, never more
      of them than are available. */
  function Suggestions(available: seq<TagView>, selected: seq<Selected>, input: string): (r: seq<TagView>)
    ensures |r| <= |available|
    ensures forall t :: t in r ==> t in available && Matches(t, input) && !IsSelected(selected, t.tag)
  {
    Filter(available, (t: TagView) => Matches(t, input) && !IsSelected(selected, t.tag))
  }

  /** A tag is suggested exactly when it is available, its lowered label contains the lowered
      input, and no selected entry carries its label. */
  lemma SuggestionsMeaning(available: seq<TagView>, selected: seq<Selected>, input: string, t: TagView)
    ensures t in Suggestions(available, selected, input) <==>
      && t in available
      && Includes(ToLowerCase(t.tag), ToLowerCase(input))
      && (forall e :: e in selected ==> SelectedLabel(e) != t.tag)
  {
    if !IsSelected(selected, t.tag) {
      forall e | e in selected
        ensures SelectedLabel(e) != t.tag
      {
        var i :| 0 <= i < |selected| && selected[i] == e;
      }
    } else {
      var i :| 0 <= i < |selected| && SelectedLabel(selected[i]) == t.tag;
      assert selected[i] in selected;
    }
  }

  /** With nothing typed and nothing selected, every available tag is suggested, in the
      order given. */
  lemma {:induction false} EmptyInputSuggestsAll(available: seq<TagView>)
    ensures Suggestions(available, [], "") == available
  {
    if available != [] {
      assert Matches(available[0], "") by {
        assert StartsWith(ToLowerCase(available[0].tag), "");
      }
      EmptyInputSuggestsAll(available[1..]);
      assert available == [available[0]] + available[1..];
    }
  }

  // ---------------------------------------------------------------------------------------
  // Creating a tag from the typed text
  // ---------------------------------------------------------------------------------------

  /** The input's own state. */
  datatype InputState = InputState(tagInput: string, showDropdown: bool)

  /** `handleCreateTag`: a typed text that is not blank is selected trimmed, and the input
      is cleared and closed; blank text changes nothing. Returns the label passed to
      `onTagSelect`, if any, and the new state. A created tag is never blank, starts and ends
      with something other than white space, and is what was typed with only white space cut
      off at either end. */
  function HandleCreateTag(st: InputState): (r: (Option<string>, InputState))
    ensures r.0.None? <==> IsBlank(st.tagInput)
    ensures r.0.None? ==> r.1 == st
    ensures r.0.Some? ==>
      var tag := r.0.value;
      tag != "" && !IsWhitespace(tag[0]) && !IsWhitespace(tag[|tag| - 1])
      && (exists k :: OccursAt(st.tagInput, tag, k) && IsBlank(st.tagInput[..k])
                       && IsBlank(st.tagInput[k + |tag|..]))
      && r.1 == InputState("", false)
  {
    TrimEmptyIffBlank(st.tagInput);
    TrimShape(st.tagInput);
    var text := Trim(st.tagInput);
    if text != "" then (Some(text), InputState("", false)) else (None, st)
  }


  /** The test `find` applies: the label equals the typed text up to letter case. */
  function SameLabel(input: string): TagView -> bool {
    (t: TagView) => ToLowerCase(t.tag) == ToLowerCase(input)
  }

  /** `find` with `SameLabel` comes back empty exactly when no suggestion has the label. */
  lemma NoSameLabel(input: string, suggestions: seq<TagView>)
    ensures FirstMatch(suggestions, SameLabel(input)).None?
        <==> forall t :: t in suggestions ==> ToLowerCase(t.tag) != ToLowerCase(input)
  {
    if FirstMatch(suggestions, SameLabel(input)).None? {
      forall t | t in suggestions
        ensures ToLowerCase(t.tag) != ToLowerCase(input)
      {
        var i :| 0 <= i < |suggestions| && suggestions[i] == t;
        assert !SameLabel(input)(suggestions[i]);
      }
    }
  }

  /** `tagInput && !filteredTags.find(...) && canCreateNewTag`: the create option is offered
      exactly when something is typed, creation is allowed, and no suggestion has the typed
      label up to letter case. */
  predicate CreateOptionShown(input: string, suggestions: seq<TagView>, canCreate: bool): (r: bool)
    ensures r <==> input != "" && canCreate
                   && forall t :: t in suggestions ==> ToLowerCase(t.tag) != ToLowerCase(input)
  {
    NoSameLabel(input, suggestions);
    input != "" && FirstMatch(suggestions, SameLabel(input)).None? && canCreate
  }

  /** `showDropdown && (tagInput || filteredTags.length > 0)`: the dropdown opens only when it
      was asked for, and then whenever it has a suggestion or, where creating is allowed, the
      create option to list. */
  predicate DropdownVisible(st: InputState, suggestions: seq<TagView>): (r: bool)
    ensures r ==> st.showDropdown
    ensures st.showDropdown && (|suggestions| > 0 || CreateOptionShown(st.tagInput, suggestions, true)) ==> r
  {
    st.showDropdown && (st.tagInput != "" || |suggestions| > 0)
  }

  // ---------------------------------------------------------------------------------------
  // Removing a chip
  // ---------------------------------------------------------------------------------------

  /** The value a chip's remove button passes to `onTagRemove`: the label the chip shows. It
      is `===` to the chip's own entry exactly when that entry is a plain label. */
  function ChipRemoveArgument(entry: Selected): (r: string)
    ensures Label(r) == entry <==> entry.Label?
    ensures entry.Chip? ==> r == entry.view.tag
  {
    SelectedLabel(entry)
  }

  /** With the corrected handler of the game form, the remove button of a label chip takes
      that label out of the list; a chip that is a `Tag` object stays, since no label is
      `===` to it. With the handler as written, the button of a label chip keeps only the
      copies of that label and drops every other entry, `Tag` chips included. */
  lemma ChipRemoval(d: Draft<Selected>, entry: Selected)
    ensures entry.Label? ==> entry !in GameForm.HandleTagRemove(d, ChipRemoveArgument(entry)).tags
    ensures entry.Chip? && entry in d.tags ==> entry in GameForm.HandleTagRemove(d, ChipRemoveArgument(entry)).tags
    ensures entry.Label? ==>
      forall x :: x in GameForm.RemoveTagAsWritten(d, ChipRemoveArgument(entry)).tags ==> x == entry
    ensures entry.Chip? ==> entry !in GameForm.RemoveTagAsWritten(d, ChipRemoveArgument(entry)).tags
  {
  }
}
