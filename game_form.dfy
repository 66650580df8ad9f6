/** The game form used to edit a game: its initial state, the validation that collects an
    error for every field that fails, the submit guard, and the tag-list handlers. */
module GameForm {
  import opened Js
  import opened Views
  import opened TagSelection
  import Entities
  import GameModel

  // ---------------------------------------------------------------------------------------
  // Initial state
  // ---------------------------------------------------------------------------------------

  /** `Partial<Game>`: the fields the caller supplies. */
  datatype PartialGame = PartialGame(
    name: Option<string>,
    user: Option<UserView>,
    explanation: Option<string>,
    duration: Option<int>,
    groups: Option<bool>,
    intensity: Option<IntensityView>,
    tags: Option<seq<Selected>>)

  /** The state the form starts from. Text and numbers fall back with `||`, so an empty
      text or a zero duration is replaced by the same empty value; `groups` falls back with
      `??`, so only a missing value becomes `true`; objects and arrays are always truthy.
      Every field the caller supplies is therefore kept as given, an explicit `groups: false`
      included; only missing fields get their defaults. */
  function InitialState(initial: PartialGame): (r: Draft<Selected>)
    ensures r.name == initial.name.GetOr("")
    ensures r.explanation == initial.explanation.GetOr("")
    ensures r.duration == initial.duration.GetOr(0)
    ensures r.groups == initial.groups.GetOr(true)
    ensures r.user == initial.user.GetOr(EmptyUser)
    ensures r.intensity == initial.intensity.GetOr(EmptyIntensity)
    ensures r.tags == initial.tags.GetOr([])
  {
    Draft(
      if StringTruthy(initial.name) then initial.name.value else "",
      if initial.user.Some? then initial.user.value else EmptyUser,
      if StringTruthy(initial.explanation) then initial.explanation.value else "",
      if NumberTruthy(initial.duration) then initial.duration.value else 0,
      if initial.groups.Some? then initial.groups.value else true,
      if initial.intensity.Some? then initial.intensity.value else EmptyIntensity,
      if initial.tags.Some? then initial.tags.value else [])
  }

  // ---------------------------------------------------------------------------------------
  // Validation
  // ---------------------------------------------------------------------------------------

  /** The keys of the error dictionary. */
  datatype FormField = NameField | ExplanationField | DurationField | IntensityField

  /** The check each field must pass. */
  predicate Passes<T>(d: Draft<T>, f: FormField) {
    match f
    case NameField => Trim(d.name) != ""
    case ExplanationField => Trim(d.explanation) != ""
    case DurationField => d.duration > 0
    case IntensityField => NumberTruthy(d.intensity.id)
  }

  function Message(f: FormField): string {
    match f
    case NameField => "Naam is verplicht"
    case ExplanationField => "Beschrijving is verplicht"
    case DurationField => "Duur moet groter zijn dan 0"
    case IntensityField => "Selecteer een intensiteit"
  }

  /** The name and the explanation fail exactly when they are blank; the intensity fails
      when it has no id or the id 0. */
  lemma PassesMeaning<T>(d: Draft<T>)
    ensures Passes(d, NameField) <==> !IsBlank(d.name)
    ensures Passes(d, ExplanationField) <==> !IsBlank(d.explanation)
    ensures Passes(d, IntensityField) <==> d.intensity.id.Some? && d.intensity.id.value != 0
  {
    TrimEmptyIffBlank(d.name);
    TrimEmptyIffBlank(d.explanation);
  }

  /** `validateForm`: the four checks run one after the other, each adding its message
      under its own key, and the form is valid when the dictionary stays empty. */
  method ValidateForm<T>(d: Draft<T>) returns (errors: map<FormField, string>, ok: bool)
    ensures forall f :: f in errors <==> !Passes(d, f)
    ensures forall f :: f in errors ==> errors[f] == Message(f)
    ensures ok <==> errors == map[]
    ensures ok <==> forall f :: Passes(d, f)
  {
    errors := map[];
    if Trim(d.name) == "" {
      errors := errors[NameField := Message(NameField)];
    }
    if Trim(d.explanation) == "" {
      errors := errors[ExplanationField := Message(ExplanationField)];
    }
    if d.duration <= 0 {
      errors := errors[DurationField := Message(DurationField)];
    }
    if !NumberTruthy(d.intensity.id) {
      errors := errors[IntensityField := Message(IntensityField)];
    }
    ok := errors == map[];
  }

  /** `handleSubmit`: the game goes to `onSubmit` only when validation succeeds. */
  method HandleSubmit<T>(d: Draft<T>) returns (errors: map<FormField, string>, submitted: Option<Draft<T>>)
    ensures forall f :: f in errors <==> !Passes(d, f)
    ensures forall f :: f in errors ==> errors[f] == Message(f)
    ensures submitted.Some? <==> forall f :: Passes(d, f)
    ensures submitted.Some? ==> submitted.value == d
  {
    var ok;
    errors, ok := ValidateForm(d);
    if !ok {
      return errors, None;
    }
    submitted := Some(d);
  }

  /** Editing a field clears its error and keeps the others. */
  function ClearError(errors: map<FormField, string>, f: FormField): (r: map<FormField, string>)
    ensures f !in r
    ensures forall g :: g != f ==> (g in r <==> g in errors) && (g in r ==> r[g] == errors[g])
  {
    errors - {f}
  }

  /** The name input's `onChange`: the new name, and no name error; every other field and
      every other error stay as they were. */
  function OnNameChange<T>(d: Draft<T>, errors: map<FormField, string>, name: string): (r: (Draft<T>, map<FormField, string>))
    ensures r.0.name == name && r.0.(name := d.name) == d
    ensures NameField !in r.1
    ensures forall f :: f != NameField ==> (f in r.1 <==> f in errors) && (f in r.1 ==> r.1[f] == errors[f])
  {
    (d.(name := name), ClearError(errors, NameField))
  }

  /** A form that passes its checks also passes the back end's checks on the name, the
      duration and the explanation: a name that is not blank is not empty, and a positive
      duration is not zero. */
  lemma AcceptedDraftPassesBackEnd<T>(d: Draft<T>, input: GameModel.GameInput)
    requires forall f :: Passes(d, f)
    requires input.user.Some? && input.intensity.Some? && input.groups.Some? && input.tags.Some?
    requires input.name == Some(d.name) && input.explanation == Some(d.explanation)
    requires input.duration == Some(d.duration)
    ensures GameModel.Validate(input).None?
  {
    assert Passes(d, NameField) && Passes(d, ExplanationField) && Passes(d, DurationField);
  }

  // ---------------------------------------------------------------------------------------
  // Tags
  // ---------------------------------------------------------------------------------------

  /** `handleTagSelect`: the picked or typed label goes last. */
  function HandleTagSelect(d: Draft<Selected>, tag: string): (r: Draft<Selected>)
    ensures r.tags == SelectTag(d.tags, Label(tag)) && r.(tags := d.tags) == d
  {
    d.(tags := SelectTag(d.tags, Label(tag)))
  }

  /** `handleTagRemove` as written: `prev.tags.filter(tag => tag === tagToRemove)` keeps the
      entries equal to the removed label and drops all the others. */
  function RemoveTagAsWritten(d: Draft<Selected>, tag: string): (r: Draft<Selected>)
    ensures forall x :: x in r.tags <==> x == Label(tag) && x in d.tags
    ensures r.(tags := d.tags) == d
  {
    d.(tags := Filter(d.tags, (x: Selected) => x == Label(tag)))
  }

  /** With "Buiten" and "Binnen" selected, removing "Buiten" leaves "Buiten" and drops
      "Binnen". */
  lemma RemoveTagAsWrittenCounterexample(d: Draft<Selected>)
    requires d.tags == [Label("Buiten"), Label("Binnen")]
    ensures RemoveTagAsWritten(d, "Buiten").tags == [Label("Buiten")]
  {
    var p := (x: Selected) => x == Label("Buiten");
    assert d.tags[1..] == [Label("Binnen")];
    assert Filter([Label("Binnen")], p) == [] by {
      assert [Label("Binnen")][1..] == [];
    }
    assert Filter(d.tags, p) == [Label("Buiten")] + Filter(d.tags[1..], p);
  }

  /** `handleTagRemove` as intended, `tag !== tagToRemove`: the label goes, every other
      entry stays as often as before and in the same order. Entries that are `Tag` objects
      are never `===` to a label, so the handler leaves them in place. */
  function HandleTagRemove(d: Draft<Selected>, tag: string): (r: Draft<Selected>)
    ensures Label(tag) !in r.tags
    ensures forall x :: x in r.tags <==> x in d.tags && x != Label(tag)
    ensures r.(tags := d.tags) == d
  {
    d.(tags := RemoveTag(d.tags, Label(tag)))
  }

  /** Removing a label that was just selected restores the list. */
  lemma RemoveUndoesSelectInForm(d: Draft<Selected>, tag: string)
    requires Label(tag) !in d.tags
    ensures HandleTagRemove(HandleTagSelect(d, tag), tag) == d
  {
    RemoveUndoesSelect(d.tags, Label(tag));
  }
}
