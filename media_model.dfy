/** `new Media(...)`: the guard chain over game, name, file and file type. */
module MediaModel {
  import opened Js
  import opened Entities

  /** The object passed to the `Media` constructor; a missing property is `None`. */
  datatype MediaInput = MediaInput(
    id: Option<int>,
    game: Option<Game>,
    name: Option<string>,
    file: Option<string>,
    filetype: Option<string>)

  /** `Media.validate`, guard by guard. */
  function Validate(input: MediaInput): (r: Option<string>)
    ensures r.None? <==> input.game.Some? && StringTruthy(input.name) && StringTruthy(input.file)
                         && StringTruthy(input.filetype)
  {
    if input.game.None? then Some("Game is required.")
    else if !StringTruthy(input.name) || input.name == Some("") then Some("Name is required.")
    else if !StringTruthy(input.file) || input.file == Some("") then Some("File is required.")
    else if !StringTruthy(input.filetype) || input.filetype == Some("") then Some("Filetype is required.")
    else None
  }

  /** The checked fields, in the order the guards run. */
  datatype MediaField = GameField | Name | File | Filetype

  const Fields: seq<MediaField> := [GameField, Name, File, Filetype]

  predicate FieldPresent(input: MediaInput, f: MediaField) {
    match f
    case GameField => input.game.Some?
    case Name => StringTruthy(input.name)
    case File => StringTruthy(input.file)
    case Filetype => StringTruthy(input.filetype)
  }

  function Message(f: MediaField): string {
    match f
    case GameField => "Game is required."
    case Name => "Name is required."
    case File => "File is required."
    case Filetype => "Filetype is required."
  }

  /** Validation reports the first missing field in the order game, name, file, file type. */
  lemma ValidateReportsFirstMissing(input: MediaInput)
    ensures Validate(input) ==
      match FirstMatch(Fields, f => !FieldPresent(input, f))
      case None => None
      case Some(f) => Some(Message(f))
  {
    assert Fields[1..] == [Name, File, Filetype];
    assert Fields[2..] == [File, Filetype];
    assert Fields[3..] == [Filetype];
  }

  /** `new Media(input)`, where `now` is the `Date` object created for `createdAt`. */
  function NewMedia(input: MediaInput, now: Stamp): (r: Result<Media>)
    ensures r.Ok? <==> Validate(input).None?
    ensures r.Err? ==> Some(r.message) == Validate(input)
    ensures r.Ok? ==> (r.value.id == input.id && r.value.game == input.game.value
                       && r.value.name == input.name.value && r.value.file == input.file.value
                       && r.value.filetype == input.filetype.value)
    ensures r.Ok? ==> r.value.createdAt == now && r.value.updatedAt == Null
  {
    match Validate(input)
    case Some(message) => Err(message)
    case None => Ok(Media(input.id, input.game.value, input.name.value, input.file.value,
                          input.filetype.value, now, Null))
  }

  /** A constructed media equals itself and is unequal to any media built from the same input
      at another moment. */
  lemma NewMediaEquality(input: MediaInput, first: Stamp, second: Stamp)
    requires NewMedia(input, first).Ok?
    ensures MediaEquals(NewMedia(input, first).value, NewMedia(input, first).value) == Ok(true)
    ensures first != second ==>
      MediaEquals(NewMedia(input, first).value, NewMedia(input, second).value) == Ok(false)
  {
    MediaEqualsReflexive(NewMedia(input, first).value);
    GameEqualsReflexive(input.game.value);
  }
}
