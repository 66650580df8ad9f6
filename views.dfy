/** The shapes the front end receives from the API and keeps in component state. A property
    the JSON may lack is `None`; `{} as User` and `{} as Intensity` are records whose every
    property is missing. */
module Views {
  import opened Js

  datatype TagView = TagView(id: Option<int>, tag: string)

  datatype UserView = UserView(
    id: Option<int>,
    name: Option<string>,
    email: Option<string>,
    password: Option<string>)

  datatype IntensityView = IntensityView(id: Option<int>, intensity: Option<string>)

  /** `{} as User` and `{} as Intensity`. */
  const EmptyUser := UserView(None, None, None, None)
  const EmptyIntensity := IntensityView(None, None)

  /** A game as the card and the detail page receive it. */
  datatype GameView = GameView(
    id: Option<int>,
    name: string,
    user: UserView,
    explanation: string,
    duration: int,
    groups: bool,
    intensity: IntensityView,
    tags: Option<seq<TagView>>)

  /** An entry of a form's tag list: the label typed or picked in the tag input, or a `Tag`
      object that came with the game being edited. */
  datatype Selected = Label(text: string) | Chip(view: TagView)

  /** The label a tag-list entry shows (`typeof tag === 'string' ? tag : tag.tag`). */
  function SelectedLabel(s: Selected): string {
    match s
    case Label(text) => text
    case Chip(view) => view.tag
  }

  /** The game a form edits. The form on the edit page keeps `Selected` entries; the create
      page keeps plain labels. */
  datatype Draft<T> = Draft(
    name: string,
    user: UserView,
    explanation: string,
    duration: int,
    groups: bool,
    intensity: IntensityView,
    tags: seq<T>)
}
