/** The five back-end entities (User, Intensity, Tag, Media, Game) as values, and their
    `equals` methods. The entities refer to each other (a game holds its user, intensity,
    tags and media; a media holds its game; users, intensities and tags keep a list of
    games), so the datatypes and the `equals` family live together in this module.

    A JavaScript `Date` created by `new Date()` is a fresh object that `===` only finds equal
    to itself; the model gives each such object an identity token, a `Stamp`. */
module Entities {
  import opened Js

  /** The identity of one `Date` object. */
  datatype Stamp = Stamp(serial: nat)

  /** A field typed `Date | null | undefined`. Two values are `===` exactly when they are the
      same constructor and, for dates, the same object. */
  datatype Timestamp = Undefined | Null | Date(stamp: Stamp)

  datatype User = User(
    id: Option<int>,
    name: string,
    email: string,
    password: string,
    games: seq<Game>,
    createdAt: Stamp,
    updatedAt: Timestamp)

  datatype Intensity = Intensity(
    id: Option<int>,
    intensity: string,
    order: int,
    games: seq<Game>,
    createdAt: Stamp,
    updatedAt: Timestamp)

  datatype Tag = Tag(
    id: Option<int>,
    tag: string,
    games: seq<Game>,
    createdAt: Stamp,
    updatedAt: Timestamp)

  datatype Media = Media(
    id: Option<int>,
    game: Game,
    name: string,
    file: string,
    filetype: string,
    createdAt: Stamp,
    updatedAt: Timestamp)

  datatype Game = Game(
    id: Option<int>,
    user: User,
    intensity: Intensity,
    name: string,
    groups: bool,
    duration: int,
    explanation: string,
    tags: seq<Tag>,
    medias: seq<Media>,
    createdAt: Timestamp,
    updatedAt: Timestamp)

  // ---------------------------------------------------------------------------------------
  // Short-circuit conjunction of calls that may throw
  // ---------------------------------------------------------------------------------------

  /** `first && rest` where either side may throw: `rest` decides only when `first` is
      `true`; a `false` or a thrown error from `first` is the answer. */
  function AndThen(first: Result<bool>, rest: Result<bool>): (r: Result<bool>)
    ensures r == Ok(true) <==> first == Ok(true) && rest == Ok(true)
  {
    if first == Ok(true) then rest else first
  }

  /** The error the tag, intensity and game services throw for an unknown id: the entity's
      name, then the id, then a fixed ending. Different ids give different messages: the id
      reads back from between the prefix and the ending. */
  function NotFoundMessage(entity: string, id: int): (r: string)
    ensures |r| >= |entity + " with id "| + |" does not exist."|
    ensures ParseInt(r[|entity + " with id "|..|r| - |" does not exist."|]) == Some(id)
  {
    var r := entity + " with id " + IntToString(id) + " does not exist.";
    assert r[|entity + " with id "|..|r| - |" does not exist."|] == IntToString(id);
    ParseIntOfIntToString(id);
    r
  }

  /** The `TypeError` thrown when a getter is called on `undefined`. */
  function ReadOfUndefined(getter: string): string {
    "Cannot read properties of undefined (reading '" + getter + "')"
  }

  // ---------------------------------------------------------------------------------------
  // equals
  // ---------------------------------------------------------------------------------------

  /** `User.equals`: name, email and password, the games position by position, then both
      timestamps by identity. */
  function UserEquals(a: User, b: User): (r: Result<bool>)
    ensures r == Ok(true) ==>
      a.name == b.name && a.email == b.email && a.password == b.password
      && a.createdAt == b.createdAt && a.updatedAt == b.updatedAt
    decreases a, 1
  {
    AndThen(Ok(a.name == b.name),
    AndThen(Ok(a.email == b.email),
    AndThen(Ok(a.password == b.password),
    AndThen(GamesEvery(a.games, b.games),
    AndThen(Ok(a.createdAt == b.createdAt),
    Ok(a.updatedAt == b.updatedAt))))))
  }

  /** `Intensity.equals`: label, order, the games position by position, then both timestamps. */
  function IntensityEquals(a: Intensity, b: Intensity): (r: Result<bool>)
    ensures r == Ok(true) ==>
      a.intensity == b.intensity && a.order == b.order
      && a.createdAt == b.createdAt && a.updatedAt == b.updatedAt
    decreases a, 1
  {
    AndThen(Ok(a.intensity == b.intensity),
    AndThen(Ok(a.order == b.order),
    AndThen(GamesEvery(a.games, b.games),
    AndThen(Ok(a.createdAt == b.createdAt),
    Ok(a.updatedAt == b.updatedAt)))))
  }

  /** `Tag.equals`: label, the games position by position, then both timestamps. */
  function TagEquals(a: Tag, b: Tag): (r: Result<bool>)
    ensures r == Ok(true) ==> a.tag == b.tag && a.createdAt == b.createdAt && a.updatedAt == b.updatedAt
    decreases a, 1
  {
    AndThen(Ok(a.tag == b.tag),
    AndThen(GamesEvery(a.games, b.games),
    AndThen(Ok(a.createdAt == b.createdAt),
    Ok(a.updatedAt == b.updatedAt))))
  }

  /** `Media.equals`: the games by `Game.equals`, the three strings, then both timestamps. */
  function MediaEquals(a: Media, b: Media): (r: Result<bool>)
    ensures r == Ok(true) ==>
      a.name == b.name && a.file == b.file && a.filetype == b.filetype
      && a.createdAt == b.createdAt && a.updatedAt == b.updatedAt
    decreases a, 1
  {
    AndThen(GameEquals(a.game, b.game),
    AndThen(Ok(a.name == b.name),
    AndThen(Ok(a.file == b.file),
    AndThen(Ok(a.filetype == b.filetype),
    AndThen(Ok(a.createdAt == b.createdAt),
    Ok(a.updatedAt == b.updatedAt))))))
  }

  /** `Game.equals`: user and intensity by their own `equals`, the scalar fields, the tags and
      media position by position over the receiver's lists, then both timestamps. */
  function GameEquals(a: Game, b: Game): (r: Result<bool>)
    ensures r == Ok(true) ==>
      a.name == b.name && a.groups == b.groups && a.duration == b.duration
      && a.explanation == b.explanation
      && a.createdAt == b.createdAt && a.updatedAt == b.updatedAt
    decreases a, 1
  {
    AndThen(UserEquals(a.user, b.user),
    AndThen(IntensityEquals(a.intensity, b.intensity),
    AndThen(Ok(a.name == b.name),
    AndThen(Ok(a.groups == b.groups),
    AndThen(Ok(a.duration == b.duration),
    AndThen(Ok(a.explanation == b.explanation),
    AndThen(TagsEvery(a.tags, b.tags),
    AndThen(MediasEvery(a.medias, b.medias),
    AndThen(Ok(a.createdAt == b.createdAt),
    Ok(a.updatedAt == b.updatedAt))))))))))
  }

  /** `mine.every((g, i) => g.equals(theirs[i]))`. When `theirs` is the shorter list,
      `theirs[i]` is `undefined` and `Game.equals` throws on its first getter call. An empty
      list passes against anything; a list that passes is no longer than the other. */
  function GamesEvery(mine: seq<Game>, theirs: seq<Game>): (r: Result<bool>)
    ensures mine == [] ==> r == Ok(true)
    ensures r == Ok(true) ==> |mine| <= |theirs|
    decreases mine, 0
  {
    if mine == [] then Ok(true)
    else if theirs == [] then Err(ReadOfUndefined("getUser"))
    else AndThen(GameEquals(mine[0], theirs[0]), GamesEvery(mine[1..], theirs[1..]))
  }

  /** `mine.every((t, i) => t.equals(theirs[i]))` over tags. */
  function TagsEvery(mine: seq<Tag>, theirs: seq<Tag>): (r: Result<bool>)
    ensures mine == [] ==> r == Ok(true)
    ensures r == Ok(true) ==> |mine| <= |theirs|
    decreases mine, 0
  {
    if mine == [] then Ok(true)
    else if theirs == [] then Err(ReadOfUndefined("getTag"))
    else AndThen(TagEquals(mine[0], theirs[0]), TagsEvery(mine[1..], theirs[1..]))
  }

  /** `mine.every((m, i) => m.equals(theirs[i]))` over media. */
  function MediasEvery(mine: seq<Media>, theirs: seq<Media>): (r: Result<bool>)
    ensures mine == [] ==> r == Ok(true)
    ensures r == Ok(true) ==> |mine| <= |theirs|
    decreases mine, 0
  {
    if mine == [] then Ok(true)
    else if theirs == [] then Err(ReadOfUndefined("getGame"))
    else AndThen(MediaEquals(mine[0], theirs[0]), MediasEvery(mine[1..], theirs[1..]))
  }

  // ---------------------------------------------------------------------------------------
  // Reflexivity
  // ---------------------------------------------------------------------------------------

  lemma {:induction false} UserEqualsReflexive(u: User)
    ensures UserEquals(u, u) == Ok(true)
    decreases u, 1
  {
    GamesEveryReflexive(u.games);
  }

  lemma {:induction false} IntensityEqualsReflexive(i: Intensity)
    ensures IntensityEquals(i, i) == Ok(true)
    decreases i, 1
  {
    GamesEveryReflexive(i.games);
  }

  lemma {:induction false} TagEqualsReflexive(t: Tag)
    ensures TagEquals(t, t) == Ok(true)
    decreases t, 1
  {
    GamesEveryReflexive(t.games);
  }

  lemma {:induction false} MediaEqualsReflexive(m: Media)
    ensures MediaEquals(m, m) == Ok(true)
    decreases m, 1
  {
    GameEqualsReflexive(m.game);
  }

  /** Every game equals itself. */
  lemma {:induction false} GameEqualsReflexive(g: Game)
    ensures GameEquals(g, g) == Ok(true)
    decreases g, 1
  {
    UserEqualsReflexive(g.user);
    IntensityEqualsReflexive(g.intensity);
    TagsEveryReflexive(g.tags);
    MediasEveryReflexive(g.medias);
  }

  lemma {:induction false} GamesEveryReflexive(gs: seq<Game>)
    ensures GamesEvery(gs, gs) == Ok(true)
    decreases gs, 0
  {
    if gs != [] {
      GameEqualsReflexive(gs[0]);
      GamesEveryReflexive(gs[1..]);
    }
  }

  lemma {:induction false} TagsEveryReflexive(ts: seq<Tag>)
    ensures TagsEvery(ts, ts) == Ok(true)
    decreases ts, 0
  {
    if ts != [] {
      TagEqualsReflexive(ts[0]);
      TagsEveryReflexive(ts[1..]);
    }
  }

  lemma {:induction false} MediasEveryReflexive(ms: seq<Media>)
    ensures MediasEvery(ms, ms) == Ok(true)
    decreases ms, 0
  {
    if ms != [] {
      MediaEqualsReflexive(ms[0]);
      MediasEveryReflexive(ms[1..]);
    }
  }

  // ---------------------------------------------------------------------------------------
  // What a positive answer means, and when the answer is `false`
  // ---------------------------------------------------------------------------------------

  /** The position-by-position comparison of tags succeeds exactly when every tag of the
      receiver equals the tag at the same index of the argument, which may be longer. */
  lemma {:induction false} TagsEveryMeaning(mine: seq<Tag>, theirs: seq<Tag>)
    ensures TagsEvery(mine, theirs) == Ok(true)
        <==> |mine| <= |theirs| && forall i :: 0 <= i < |mine| ==> TagEquals(mine[i], theirs[i]) == Ok(true)
    decreases mine
  {
    if mine != [] && theirs != [] {
      TagsEveryMeaning(mine[1..], theirs[1..]);
      assert forall i :: 1 <= i < |mine| ==> mine[i] == mine[1..][i - 1];
      assert forall i :: 1 <= i < |theirs| ==> theirs[i] == theirs[1..][i - 1];
    }
  }

  /** The same for media. */
  lemma {:induction false} MediasEveryMeaning(mine: seq<Media>, theirs: seq<Media>)
    ensures MediasEvery(mine, theirs) == Ok(true)
        <==> |mine| <= |theirs| && forall i :: 0 <= i < |mine| ==> MediaEquals(mine[i], theirs[i]) == Ok(true)
    decreases mine
  {
    if mine != [] && theirs != [] {
      MediasEveryMeaning(mine[1..], theirs[1..]);
      assert forall i :: 1 <= i < |mine| ==> mine[i] == mine[1..][i - 1];
      assert forall i :: 1 <= i < |theirs| ==> theirs[i] == theirs[1..][i - 1];
    }
  }

  /** Games that compare equal agree on every scalar field and on both timestamps, their
      user and intensity compare equal, and the receiver's tags and media match the
      argument's position by position. */
  lemma GameEqualsMeaning(a: Game, b: Game)
    ensures GameEquals(a, b) == Ok(true) <==>
      UserEquals(a.user, b.user) == Ok(true) && IntensityEquals(a.intensity, b.intensity) == Ok(true)
      && a.name == b.name && a.groups == b.groups && a.duration == b.duration
      && a.explanation == b.explanation
      && |a.tags| <= |b.tags| && (forall i :: 0 <= i < |a.tags| ==> TagEquals(a.tags[i], b.tags[i]) == Ok(true))
      && |a.medias| <= |b.medias| && (forall i :: 0 <= i < |a.medias| ==> MediaEquals(a.medias[i], b.medias[i]) == Ok(true))
      && a.createdAt == b.createdAt && a.updatedAt == b.updatedAt
  {
    TagsEveryMeaning(a.tags, b.tags);
    MediasEveryMeaning(a.medias, b.medias);
  }

  /** Users that differ in name, email or password are unequal; those are compared first, so
      the answer is a plain `false`. */
  lemma UserEqualsFalseOnCredentials(a: User, b: User)
    requires a.name != b.name || a.email != b.email || a.password != b.password
    ensures UserEquals(a, b) == Ok(false)
  {
  }

  /** Tags with different labels are unequal. */
  lemma TagEqualsFalseOnLabel(a: Tag, b: Tag)
    requires a.tag != b.tag
    ensures TagEquals(a, b) == Ok(false)
  {
  }

  /** Intensities with a different label or order are unequal. */
  lemma IntensityEqualsFalseOnFields(a: Intensity, b: Intensity)
    requires a.intensity != b.intensity || a.order != b.order
    ensures IntensityEquals(a, b) == Ok(false)
  {
  }

  /** Tags created at different moments (distinct `Date` objects) are never equal, whatever
      their labels, unless the comparison throws first. */
  lemma TagEqualsNeedsSameCreation(a: Tag, b: Tag)
    requires a.createdAt != b.createdAt
    ensures TagEquals(a, b) != Ok(true)
  {
  }

  /** Games with the same user and intensity but different names are unequal. */
  lemma GameEqualsFalseOnName(a: Game, b: Game)
    requires a.user == b.user && a.intensity == b.intensity
    requires a.name != b.name
    ensures GameEquals(a, b) == Ok(false)
  {
    UserEqualsReflexive(a.user);
    IntensityEqualsReflexive(a.intensity);
  }

  /** Media on the same game with different names are unequal. */
  lemma MediaEqualsFalseOnName(a: Media, b: Media)
    requires a.game == b.game && a.name != b.name
    ensures MediaEquals(a, b) == Ok(false)
  {
    GameEqualsReflexive(a.game);
  }

  /** Tag order matters: swapping two distinguishable tags makes a game unequal to itself. */
  lemma GameEqualsOrderSensitive(g: Game, t1: Tag, t2: Tag)
    requires g.tags == [t1, t2]
    requires TagEquals(t1, t2) == Ok(false)
    ensures GameEquals(g, g.(tags := [t2, t1])) == Ok(false)
  {
    UserEqualsReflexive(g.user);
    IntensityEqualsReflexive(g.intensity);
    MediasEveryReflexive(g.medias);
    assert TagsEvery([t1, t2], [t2, t1]) == Ok(false);
  }

  /** The comparison runs over the receiver's tags only: extra tags at the end of the
      argument go unnoticed, while extra tags on the receiver make `equals` throw. */
  lemma GameEqualsAsymmetric(g: Game, extra: seq<Tag>)
    requires extra != []
    ensures GameEquals(g, g.(tags := g.tags + extra)) == Ok(true)
    ensures GameEquals(g.(tags := g.tags + extra), g) == Err(ReadOfUndefined("getTag"))
  {
    var longer := g.tags + extra;
    UserEqualsReflexive(g.user);
    IntensityEqualsReflexive(g.intensity);
    MediasEveryReflexive(g.medias);
    TagsEveryPrefix(g.tags, extra);
    TagsEveryLonger(g.tags, extra);
  }

  /** A list of tags matches itself with anything appended. */
  lemma {:induction false} TagsEveryPrefix(ts: seq<Tag>, extra: seq<Tag>)
    ensures TagsEvery(ts, ts + extra) == Ok(true)
    decreases ts
  {
    if ts != [] {
      TagEqualsReflexive(ts[0]);
      assert (ts + extra)[1..] == ts[1..] + extra;
      TagsEveryPrefix(ts[1..], extra);
    }
  }

  /** A list of tags with extra tags appended, compared against the original, throws once it
      runs past the original's end. */
  lemma {:induction false} TagsEveryLonger(ts: seq<Tag>, extra: seq<Tag>)
    requires extra != []
    ensures TagsEvery(ts + extra, ts) == Err(ReadOfUndefined("getTag"))
    decreases ts
  {
    if ts != [] {
      TagEqualsReflexive(ts[0]);
      assert (ts + extra)[1..] == ts[1..] + extra;
      TagsEveryLonger(ts[1..], extra);
    }
  }
}
