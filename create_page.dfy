/** The page that creates a game: its state, the submit sequence with its reset and its
    error message, and the handlers that edit the form. Validation is the game form's. */
module CreatePage {
  import opened Js
  import opened Views
  import opened TagSelection
  import GameForm

  /** The user the page creates games for. */
  const JohnDoe := UserView(Some(1), Some("John Doe"), Some("john@jeugdwerk.org"), Some("password123"))

  /** The empty form for `user`: the page's first state and the state it returns to after
      a game is saved. */
  function EmptyDraft(user: UserView): Draft<string> {
    Draft("", user, "", 0, true, EmptyIntensity, [])
  }

  const SaveFailed := "Er is een fout opgetreden bij het opslaan van het spel"

  /** An empty form fails every check, so a form that was just reset cannot be submitted
      again before it is filled in. */
  lemma EmptyDraftFailsEveryCheck(user: UserView)
    ensures forall f :: !GameForm.Passes(EmptyDraft(user), f)
  {
    assert Trim("") == "";
  }

  class Page {
    var game: Draft<string>
    var errors: map<GameForm.FormField, string>
    var isSubmitting: bool
    var apiError: string

    constructor()
      ensures game == EmptyDraft(JohnDoe) && errors == map[]
      ensures !isSubmitting && apiError == ""
    {
      game := EmptyDraft(JohnDoe);
      errors := map[];
      isSubmitting := false;
      apiError := "";
    }

    /** `handleSubmit`. Validation fills `errors`; a form that fails stops there. Otherwise
        the game is sent (`request`); `saved` is whether the request came back ok. A saved
        game resets the form for the same user; a failed one keeps the form and sets the
        error message. Either way the page stops submitting. */
    method HandleSubmit(saved: bool) returns (request: Option<Draft<string>>)
      modifies this
      ensures forall f :: f in errors <==> !GameForm.Passes(old(game), f)
      ensures forall f :: f in errors ==> errors[f] == GameForm.Message(f)
      ensures request.Some? <==> forall f :: GameForm.Passes(old(game), f)
      ensures request.None? ==>
        game == old(game) && isSubmitting == old(isSubmitting) && apiError == old(apiError)
      ensures request.Some? ==> request.value == old(game) && !isSubmitting
      ensures request.Some? && saved ==> game == EmptyDraft(old(game).user) && apiError == ""
      ensures request.Some? && !saved ==> game == old(game) && apiError == SaveFailed
    {
      var ok;
      errors, ok := GameForm.ValidateForm(game);
      if !ok {
        return None;
      }
      isSubmitting := true;
      apiError := "";
      request := Some(game);
      if saved {
        game := EmptyDraft(game.user);
      } else {
        apiError := SaveFailed;
      }
      isSubmitting := false;
    }

    /** `handleTagSelect`. */
    method HandleTagSelect(tag: string)
      modifies this
      ensures game == old(game).(tags := SelectTag(old(game).tags, tag))
      ensures errors == old(errors) && isSubmitting == old(isSubmitting) && apiError == old(apiError)
    {
      game := game.(tags := SelectTag(game.tags, tag));
    }

    /** `handleTagRemove`: every copy of the tag goes, the rest keep their order. */
    method HandleTagRemove(tag: string)
      modifies this
      ensures game == old(game).(tags := RemoveTag(old(game).tags, tag))
      ensures errors == old(errors) && isSubmitting == old(isSubmitting) && apiError == old(apiError)
    {
      game := game.(tags := RemoveTag(game.tags, tag));
    }

    /** The name input's `onChange`: the new name, and only the name error cleared. */
    method OnNameChange(name: string)
      modifies this
      ensures game == old(game).(name := name)
      ensures errors == GameForm.ClearError(old(errors), GameForm.NameField)
      ensures isSubmitting == old(isSubmitting) && apiError == old(apiError)
    {
      var next := GameForm.OnNameChange(game, errors, name);
      game, errors := next.0, next.1;
    }
  }
}
