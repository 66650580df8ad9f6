/** The game page: who sees the edit and delete controls and the file management, how the
    explanation is turned into HTML, and the groups label. The duration text is the one of
    module Duration. */
module GameDetails {
  import opened Js
  import opened Views

  // ---------------------------------------------------------------------------------------
  // The owner's controls
  // ---------------------------------------------------------------------------------------

  /** `user?.id`: undefined when nobody is signed in. */
  function ViewerId(viewer: Option<UserView>): Option<int> {
    match viewer
    case None => None
    case Some(u) => u.id
  }

  /** `user?.id === game.user.id`. When the game's owner has an id, only a signed-in viewer
      with that id sees the controls. A page without a signed-in viewer shows them only for a
      game whose owner has no id, since `undefined === undefined`. */
  predicate ShowsOwnerControls(viewer: Option<UserView>, game: GameView): (r: bool)
    ensures game.user.id.Some? ==> (r <==> viewer.Some? && viewer.value.id == game.user.id)
    ensures viewer.None? ==> (r <==> game.user.id.None?)
  {
    ViewerId(viewer) == game.user.id
  }

  /** The text under the files heading (which always reads "Bestanden"): "Bestandenbeheer" for
      exactly the viewers who see the edit controls, "Bestanden" for everyone else. */
  function FilesView(viewer: Option<UserView>, game: GameView): (r: string)
    ensures r == "Bestandenbeheer" <==> ShowsOwnerControls(viewer, game)
    ensures r == "Bestanden" <==> !ShowsOwnerControls(viewer, game)
  {
    var r := if ShowsOwnerControls(viewer, game) then "Bestandenbeheer" else "Bestanden";
    assert |"Bestanden"| != |"Bestandenbeheer"|;
    r
  }

  // ---------------------------------------------------------------------------------------
  // The explanation
  // ---------------------------------------------------------------------------------------

  const Break := "<br />"

  /** `explanation.replace(/\n/g, '<br />')`. */
  function ExplanationHtml(s: string): (r: string)
    ensures '\n' !in r
    ensures |r| >= |s|
  {
    if s == [] then []
    else (if s[0] == '\n' then Break else [s[0]]) + ExplanationHtml(s[1..])
  }

  /** Reads the HTML back: every `<br />` is a line break again. */
  function BreaksToNewlines(h: string): (r: string)
    decreases |h|
  {
    if StartsWith(h, Break) then "\n" + BreaksToNewlines(h[|Break|..])
    else if h == [] then []
    else [h[0]] + BreaksToNewlines(h[1..])
  }

  /** No text is lost: an explanation without '<' is recovered line break for line break
      from its HTML. */
  lemma {:induction false} ExplanationHtmlKeepsText(s: string)
    requires '<' !in s
    ensures BreaksToNewlines(ExplanationHtml(s)) == s
    decreases |s|
  {
    if s != [] {
      var h := ExplanationHtml(s);
      var rest := ExplanationHtml(s[1..]);
      ExplanationHtmlKeepsText(s[1..]);
      if s[0] == '\n' {
        assert h == Break + rest;
        assert StartsWith(h, Break);
        assert h[|Break|..] == rest;
      } else {
        assert h == [s[0]] + rest;
        assert h[0] != '<';
        assert !StartsWith(h, Break);
        assert h[1..] == rest;
      }
    }
  }

  // ---------------------------------------------------------------------------------------
  // Groups
  // ---------------------------------------------------------------------------------------

  /** `game.groups ? 'In groepen' : 'Individueel'`. */
  function GroupsLabel(groups: bool): string {
    if groups then "In groepen" else "Individueel"
  }
}
