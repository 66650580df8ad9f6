/** The game card of the overview page: the link to the game's own page with its URL slug,
    the duration text, the groups label and the first tags. */
module GameCard {
  import opened Js
  import opened Views

  // ---------------------------------------------------------------------------------------
  // The slug
  // ---------------------------------------------------------------------------------------

  /** No white space anywhere in `s`. */
  predicate IsWord(s: string) {
    forall i :: 0 <= i < |s| ==> !IsWhitespace(s[i])
  }

  /** `replace(/\s+/g, '-')`: every maximal run of white space becomes one '-'. */
  function DashRuns(s: string): (r: string)
    ensures IsWord(r)
    ensures |r| <= |s|
    ensures forall i :: 0 <= i < |r| ==> r[i] == '-' || r[i] in s
    decreases |s|
  {
    if s == [] then []
    else if IsWhitespace(s[0]) then
      var rest := TrimStart(s);
      TrimStartShape(s);
      assert rest != s;
      "-" + DashRuns(rest)
    else [s[0]] + DashRuns(s[1..])
  }

  /** `game.name.toLowerCase().replace(/\s+/g, '-')`: a single path segment without white
      space, never longer than the name. */
  function Slug(name: string): (r: string)
    ensures IsWord(r) && |r| <= |name|
  {
    DashRuns(ToLowerCase(name))
  }

  /** A slug has no upper-case letter. */
  lemma SlugShape(name: string)
    ensures forall i :: 0 <= i < |Slug(name)| ==> !('A' <= Slug(name)[i] <= 'Z')
  {
    var lower := ToLowerCase(name);
    forall i | 0 <= i < |Slug(name)|
      ensures !('A' <= Slug(name)[i] <= 'Z')
    {
      var c := Slug(name)[i];
      if c != '-' {
        assert c in lower;
        var j :| 0 <= j < |lower| && lower[j] == c;
        assert c == LowerChar(name[j]);
      }
    }
  }

  /** A name without white space only has its letters lowered. */
  lemma {:induction false} DashRunsOfWord(s: string)
    requires IsWord(s)
    ensures DashRuns(s) == s
    decreases |s|
  {
    if s != [] {
      assert IsWord(s[1..]) by {
        forall i | 0 <= i < |s[1..]|
          ensures !IsWhitespace(s[1..][i])
        {
          assert s[1..][i] == s[i + 1];
        }
      }
      DashRunsOfWord(s[1..]);
    }
  }

  /** Leading white space followed by a non-blank start is dropped by `TrimStart`. */
  lemma {:induction false} TrimStartOfGap(gap: string, b: string)
    requires IsBlank(gap)
    requires b == [] || !IsWhitespace(b[0])
    ensures TrimStart(gap + b) == b
    decreases |gap|
  {
    if gap != [] {
      assert (gap + b)[1..] == gap[1..] + b;
      TrimStartOfGap(gap[1..], b);
    }
  }

  /** A word, a gap of white space of any length, and the rest: the gap becomes a single '-'. */
  lemma {:induction false} DashRunsJoin(a: string, gap: string, b: string)
    requires IsWord(a)
    requires gap != [] && IsBlank(gap)
    requires b == [] || !IsWhitespace(b[0])
    ensures DashRuns(a + gap + b) == a + "-" + DashRuns(b)
    decreases |a|
  {
    if a == [] {
      assert a + gap + b == gap + b;
      TrimStartOfGap(gap, b);
    } else {
      assert (a + gap + b)[1..] == a[1..] + gap + b;
      assert IsWord(a[1..]) by {
        forall i | 0 <= i < |a[1..]|
          ensures !IsWhitespace(a[1..][i])
        {
          assert a[1..][i] == a[i + 1];
        }
      }
      DashRunsJoin(a[1..], gap, b);
    }
  }

  /** Lowering letters distributes over concatenation. */
  lemma ToLowerCaseConcat(a: string, b: string)
    ensures ToLowerCase(a + b) == ToLowerCase(a) + ToLowerCase(b)
  {
    assert forall i :: 0 <= i < |a + b| ==> ToLowerCase(a + b)[i] == (ToLowerCase(a) + ToLowerCase(b))[i];
  }

  /** Two words separated by white space give the lowered first word, one '-', and the
      slug of the rest: "Tikkertje   Buiten" has the slug "tikkertje-buiten". */
  lemma SlugJoinsWords(a: string, gap: string, b: string)
    requires IsWord(a)
    requires gap != [] && IsBlank(gap)
    requires b == [] || !IsWhitespace(b[0])
    ensures Slug(a + gap + b) == ToLowerCase(a) + "-" + Slug(b)
  {
    ToLowerCaseConcat(a + gap, b);
    ToLowerCaseConcat(a, gap);
    var la, lg, lb := ToLowerCase(a), ToLowerCase(gap), ToLowerCase(b);
    assert IsWord(la) by {
      forall i | 0 <= i < |la|
        ensures !IsWhitespace(la[i])
      {
        assert la[i] == LowerChar(a[i]);
      }
    }
    assert IsBlank(lg) by {
      forall i | 0 <= i < |lg|
        ensures IsWhitespace(lg[i])
      {
        assert lg[i] == LowerChar(gap[i]);
      }
    }
    if b != [] {
      assert lb[0] == LowerChar(b[0]);
    }
    DashRunsJoin(la, lg, lb);
  }

  // ---------------------------------------------------------------------------------------
  // The link
  // ---------------------------------------------------------------------------------------

  /** A template literal writes a missing id as "undefined". */
  function IdText(id: Option<int>): string {
    match id
    case None => "undefined"
    case Some(n) => IntToString(n)
  }

  /** `/spel/${game.id}/${gameSlug}`. The card links to the page of its own game: the route
      reads back the game's id and the slug of its name. A game without an id links to the
      segment "undefined", which is no id at all. */
  function CardLink(game: GameView): (r: string)
    ensures LinkId(r) == game.id
    ensures LinkSlug(r) == Slug(game.name)
  {
    LinkReadsBack(game.id, Slug(game.name));
    "/spel/" + IdText(game.id) + "/" + Slug(game.name)
  }

  /** How the game page's route `/spel/[id]/[[...slug]]` reads a path: the id segment as an
      integer, and what follows it. */
  function LinkId(path: string): Option<int> {
    if StartsWith(path, "/spel/") then ParseInt(Before(path[6..], '/')) else None
  }

  function LinkSlug(path: string): string {
    if StartsWith(path, "/spel/") then
      var rest := path[6..];
      var id := Before(rest, '/');
      if |id| < |rest| then rest[|id| + 1..] else ""
    else ""
  }

  /** A path built from an id and a slug gives both back to the route: the slug is the whole
      rest of the path after the id segment, slashes included. */
  lemma LinkReadsBack(id: Option<int>, slug: string)
    ensures LinkId("/spel/" + IdText(id) + "/" + slug) == id
    ensures LinkSlug("/spel/" + IdText(id) + "/" + slug) == slug
  {
    var idText := IdText(id);
    var link := "/spel/" + idText + "/" + slug;
    assert '/' !in idText by {
      if id.Some? && '/' in idText {
        IntToStringChars(id.value, '/');
      }
    }
    assert StartsWith(link, "/spel/");
    assert link[6..] == idText + ['/'] + slug;
    BeforeConcat(idText, '/', slug);
    if id.Some? {
      ParseIntOfIntToString(id.value);
    } else {
      assert !IsDigit(idText[0]);
    }
  }

  // ---------------------------------------------------------------------------------------
  // Groups and tags
  // ---------------------------------------------------------------------------------------

  /** `game.groups ? "Groepsspel" : "Individueel spel"`. */
  function GroupsLabel(groups: bool): string {
    if groups then "Groepsspel" else "Individueel spel"
  }

  /** The tags the card shows: nothing when the game has no tags, otherwise
      `tags.slice(0, 2)`. */
  function DisplayedTags(game: GameView): (r: seq<TagView>)
    ensures game.tags.None? ==> r == []
    ensures game.tags.Some? ==>
      |r| == (if |game.tags.value| < 2 then |game.tags.value| else 2) && r == game.tags.value[..|r|]
  {
    match game.tags
    case None => []
    case Some(tags) => if |tags| > 0 then tags[..if |tags| < 2 then |tags| else 2] else []
  }
}
