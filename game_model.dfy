/** `new Game(...)`: the guard chain over the seven required fields, and the defaults the
    constructor fills in. */
module GameModel {
  import opened Js
  import opened Entities

  /** The object passed to the `Game` constructor; a missing property is `None`.
      `createdAt` and `updatedAt` are passed through as given. */
  datatype GameInput = GameInput(
    id: Option<int>,
    user: Option<User>,
    intensity: Option<Intensity>,
    name: Option<string>,
    groups: Option<bool>,
    duration: Option<int>,
    explanation: Option<string>,
    tags: Option<seq<Tag>>,
    medias: Option<seq<Media>>,
    createdAt: Timestamp,
    updatedAt: Timestamp)

  /** `Game.validate`, guard by guard. Objects and arrays are truthy even when empty, so the
      user, intensity and tags guards only reject missing values; `groups` is compared with
      `null`, so `false` passes; the duration is only tested for being falsy. */
  function Validate(input: GameInput): (r: Option<string>)
    ensures r.None? <==> input.user.Some? && input.intensity.Some? && StringTruthy(input.name)
                         && input.groups.Some? && NumberTruthy(input.duration)
                         && StringTruthy(input.explanation) && input.tags.Some?
  {
    if input.user.None? then Some("User is required.")
    else if input.intensity.None? then Some("Intensity is required.")
    else if !StringTruthy(input.name) || input.name == Some("") then Some("Name is required.")
    else if input.groups.None? then Some("Groups is required.")
    else if !NumberTruthy(input.duration) then Some("Duration is required.")
    else if !StringTruthy(input.explanation) && input.name != Some("") then Some("Explanation is required.")
    else if input.tags.None? then Some("Tags is required.")
    else None
  }

  /** The checked fields, in the order the guards run. */
  datatype GameField = UserField | IntensityField | Name | Groups | Duration | Explanation | Tags

  const Fields: seq<GameField> := [UserField, IntensityField, Name, Groups, Duration, Explanation, Tags]

  /** What each guard requires of its field once the earlier guards have passed. */
  predicate FieldPresent(input: GameInput, f: GameField) {
    match f
    case UserField => input.user.Some?
    case IntensityField => input.intensity.Some?
    case Name => StringTruthy(input.name)
    case Groups => input.groups.Some?
    case Duration => NumberTruthy(input.duration)
    case Explanation => StringTruthy(input.explanation)
    case Tags => input.tags.Some?
  }

  /** The test `find` applies to each field: is it missing? */
  function Missing(input: GameInput): GameField -> bool {
    f => !FieldPresent(input, f)
  }

  function Message(f: GameField): string {
    match f
    case UserField => "User is required."
    case IntensityField => "Intensity is required."
    case Name => "Name is required."
    case Groups => "Groups is required."
    case Duration => "Duration is required."
    case Explanation => "Explanation is required."
    case Tags => "Tags is required."
  }

  /** Validation reports the first missing field in the order user, intensity, name, groups,
      duration, explanation, tags. The explanation guard's extra condition on the name never
      matters: the name has already been checked to be non-empty. */
  lemma ValidateReportsFirstMissing(input: GameInput)
    ensures Validate(input) ==
      match FirstMatch(Fields, Missing(input))
      case None => None
      case Some(f) => Some(Message(f))
  {
    var missing := Missing(input);
    var fs := Fields;
    FirstMatchStep(fs, missing);
    if input.user.None? { return; }
    fs := [IntensityField, Name, Groups, Duration, Explanation, Tags];
    assert Fields[1..] == fs;
    FirstMatchStep(fs, missing);
    if input.intensity.None? { return; }
    assert fs[1..] == [Name, Groups, Duration, Explanation, Tags];
    fs := fs[1..];
    FirstMatchStep(fs, missing);
    if !StringTruthy(input.name) { return; }
    assert fs[1..] == [Groups, Duration, Explanation, Tags];
    fs := fs[1..];
    FirstMatchStep(fs, missing);
    if input.groups.None? { return; }
    assert fs[1..] == [Duration, Explanation, Tags];
    fs := fs[1..];
    FirstMatchStep(fs, missing);
    if !NumberTruthy(input.duration) { return; }
    assert fs[1..] == [Explanation, Tags];
    fs := fs[1..];
    FirstMatchStep(fs, missing);
    if !StringTruthy(input.explanation) { return; }
    assert fs[1..] == [Tags];
    fs := fs[1..];
    FirstMatchStep(fs, missing);
  }

  /** A negative duration and `groups: false` are accepted: only a missing or zero duration
      and a missing `groups` are rejected. */
  lemma OnlyFalsyDurationRejected(input: GameInput)
    requires input.user.Some? && input.intensity.Some? && StringTruthy(input.name)
    requires StringTruthy(input.explanation) && input.tags.Some?
    ensures input.groups == Some(false) && input.duration.Some? && input.duration.value < 0
            ==> Validate(input).None?
    ensures input.groups.Some? && (input.duration == None || input.duration == Some(0))
            ==> Validate(input) == Some("Duration is required.")
    ensures input.groups.None? ==> Validate(input) == Some("Groups is required.")
  {
  }

  /** `new Game(input)`: on success every getter returns the supplied value, and a missing
      media list becomes the empty list. */
  function NewGame(input: GameInput): (r: Result<Game>)
    ensures r.Ok? <==> Validate(input).None?
    ensures r.Err? ==> Some(r.message) == Validate(input)
    ensures r.Ok? ==> (r.value.id == input.id && r.value.user == input.user.value
                       && r.value.intensity == input.intensity.value && r.value.name == input.name.value
                       && r.value.groups == input.groups.value && r.value.duration == input.duration.value
                       && r.value.explanation == input.explanation.value && r.value.tags == input.tags.value
                       && r.value.createdAt == input.createdAt && r.value.updatedAt == input.updatedAt)
    ensures r.Ok? ==> r.value.medias == (if input.medias.Some? then input.medias.value else [])
  {
    match Validate(input)
    case Some(message) => Err(message)
    case None =>
      Ok(Game(input.id, input.user.value, input.intensity.value, input.name.value, input.groups.value,
              input.duration.value, input.explanation.value, input.tags.value, input.medias.GetOr([]),
              input.createdAt, input.updatedAt))
  }

  /** Games built from inputs that differ only in the name are unequal. */
  lemma DifferentNamesUnequal(a: GameInput, name: string)
    requires NewGame(a).Ok? && name != "" && Some(name) != a.name
    ensures NewGame(a.(name := Some(name))).Ok?
    ensures GameEquals(NewGame(a).value, NewGame(a.(name := Some(name))).value) == Ok(false)
  {
    GameEqualsFalseOnName(NewGame(a).value, NewGame(a.(name := Some(name))).value);
  }
}
