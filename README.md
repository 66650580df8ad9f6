# Jeugdwerk: a Dafny model of the game catalogue

Jeugdwerk is a web application in which youth workers collect games for their groups. A game
has a name, an explanation, a duration in minutes, an intensity, whether it is played in
groups, a list of tags and a list of media files. This project models the core of the back
end and the front-end logic that decides what a user sees and submits, and proves
properties of that model.

Back end:

- **Entities** (modules `Entities`, `TagModel`, `UserModel`, `IntensityModel`, `MediaModel`,
  `GameModel`). These are the model classes and their constructors. Each constructor runs a
  chain of guards and throws the first guard's message. The model writes a thrown error as a
  `Result`. The `equals` methods compare fields in order and stop at the first `false`. Their
  `every` over games, tags and media indexes the other object's list. A `Date` is compared by
  identity, so it is modelled as an opaque stamp. Calling a getter on `undefined` throws, and
  the model keeps that error.
- **Repositories** (`TagRepository`, `IntensityRepository`, `GameRepository`,
  `UserRepository`). Each in-memory array is a class whose `seq` field the methods reassign.
  `find` is a first-match search. Listing intensities sorts the array in place with a stable
  insertion sort, written with a loop; its comparator is the one the repository passes to
  `sort`.
- **Services** (`TagService`, `IntensityService`, `GameService`, `UserService`).
  - A lookup by id fails with "X with id N does not exist."
  - Sign-up refuses a duplicate email or username.
  - Log-in checks a password hash and signs a token.

Front end:

- **Duration text** (`Duration`): "H uur en M minuten" as shown on a card and on the game page.
- **Game card** (`GameCard`): the link slug, the link, the groups label and the first two tags.
- **Game page** (`GameDetails`): which viewer sees the owner controls, and the explanation
  with line breaks turned into `<br />`.
- **Game form** (`GameForm`, `TagSelection`): its initial state, its four checks, the submit
  handler and the tag handlers.
- **Create page** (`CreatePage`): a class holding the page's state. Its `HandleSubmit` validates
  the form, sends the game, resets the form or sets the error message.
- **Tag inputs** (`FormTagInput`, `GameTagInput`): the two tag inputs' suggestions, tag
  creation and the "create" option.
- **Sign-up form** (`SignupForm`): its ordered checks and how a refused sign-up is reported.
- **Filter bar** (`Filters`): its tag handlers and the conversion of its select and input
  values.

JavaScript semantics the code relies on are written out in module `Js`:

- truthiness of strings and numbers;
- `trim` with the white space of `\s`;
- ASCII `toLowerCase`;
- `includes`;
- `String(n)` and `Number(s)` for integers;
- the truncating `%`;
- `find` and `filter`.

The view types the front end receives (`Views`) are records with optional fields, since
the front end builds them with `{} as Intensity`.

## Model

| member | source | states |
|---|---|---|
| Entities.AndThen | back-end/model/game.ts:157-170 | a chain of `&&` over calls that may throw is `true` exactly when both sides are `true` |
| Entities.NotFoundMessage | back-end/service/game.service.ts:10 | the message "X with id N does not exist." that the tag, intensity and game services throw; the id reads back from it, so different ids give different messages |
| Entities.UserEquals | back-end/model/user.ts:66-75 | a `true` answer means name, email, password and both timestamps agree |
| Entities.IntensityEquals | back-end/model/intensity.ts:61-69 | a `true` answer means label, order and both timestamps agree |
| Entities.TagEquals | back-end/model/tag.ts:48-55 | a `true` answer means label and both timestamps agree |
| Entities.MediaEquals | back-end/model/media.ts:69-78 | a `true` answer means name, file, file type and both timestamps agree |
| Entities.GameEquals | back-end/model/game.ts:157-170 | a `true` answer means name, groups, duration, explanation and both timestamps agree |
| Entities.UserEqualsReflexive | back-end/model/user.ts:66-75 | a user equals itself, games included |
| Entities.IntensityEqualsReflexive | back-end/model/intensity.ts:61-69 | an intensity equals itself |
| Entities.TagEqualsReflexive | back-end/model/tag.ts:48-55 | a tag equals itself |
| Entities.MediaEqualsReflexive | back-end/model/media.ts:69-78 | a media equals itself, its game included |
| Entities.GameEqualsReflexive | back-end/model/game.ts:157-170 | a game equals itself, user, intensity, tags and media included |
| Entities.GamesEvery | back-end/model/user.ts:71 | an empty game list passes `every` against any list, and a list that passes is no longer than the other |
| Entities.TagsEvery | back-end/model/game.ts:165 | an empty tag list passes `every` against any list, and a list that passes is no longer than the other |
| Entities.MediasEvery | back-end/model/game.ts:166 | an empty media list passes `every` against any list, and a list that passes is no longer than the other |
| Entities.GamesEveryReflexive | back-end/model/user.ts:71 | the position-by-position `every` over a game list holds against the same list |
| Entities.TagsEveryReflexive | back-end/model/game.ts:165 | the `every` over a tag list holds against the same list |
| Entities.MediasEveryReflexive | back-end/model/game.ts:166 | the `every` over a media list holds against the same list |
| Entities.TagsEveryMeaning | back-end/model/game.ts:165 | the tag `every` holds when each tag equals the tag at the same index of the other list |
| Entities.MediasEveryMeaning | back-end/model/game.ts:166 | the media `every` holds when each media equals the media at the same index of the other list |
| Entities.GameEqualsMeaning | back-end/model/game.ts:157-170 | two games are equal exactly when users, intensities, name, groups, duration, explanation and both timestamps agree, and each tag and media equals the one at the same index of the other game, which has at least as many |
| Entities.UserEqualsFalseOnCredentials | back-end/model/user.ts:68-70 | users with a different name, email or password are unequal |
| Entities.TagEqualsFalseOnLabel | back-end/model/tag.ts:50 | tags with a different label are unequal |
| Entities.IntensityEqualsFalseOnFields | back-end/model/intensity.ts:63-64 | intensities with a different label or order are unequal |
| Entities.TagEqualsNeedsSameCreation | back-end/model/tag.ts:52 | tags created by different `Date` objects are never equal |
| Entities.GameEqualsFalseOnName | back-end/model/game.ts:161 | games with the same user and intensity but different names are unequal |
| Entities.MediaEqualsFalseOnName | back-end/model/media.ts:69-78 | media of the same game with different names are unequal |
| Entities.GameEqualsOrderSensitive | back-end/model/game.ts:165 | swapping two unequal tags makes a game unequal to itself |
| Entities.GameEqualsAsymmetric | back-end/model/game.ts:165 | a game equals a copy with extra tags, while the copy's `equals` throws reading `getTag` of `undefined` |
| Entities.TagsEveryPrefix | back-end/model/game.ts:165 | a tag list passes `every` against any longer list that starts with it |
| Entities.TagsEveryLonger | back-end/model/game.ts:165 | a longer tag list throws against its own prefix |
| TagModel.Validate | back-end/model/tag.ts:21-26 | a tag is rejected with "Tag is required." exactly when its label is missing or empty |
| TagModel.NewTag | back-end/model/tag.ts:10-19 | a constructed tag keeps id and label, has no games and no update time, or the constructor throws the validation message |
| TagModel.SeparateTagsNeverEqual | back-end/model/tag.ts:48-55 | two tags constructed at different moments are never equal |
| UserModel.Validate | back-end/model/user.ts:27-36 | a user is accepted exactly when name, email and password are all non-empty |
| UserModel.ValidateReportsFirstMissing | back-end/model/user.ts:33-35 | the message names the first missing field in the order name, email, password |
| UserModel.NewUser | back-end/model/user.ts:12-25 | a constructed user keeps id and credentials, with no games and no update time; otherwise the first validation message |
| UserModel.SeparateUsersNeverEqual | back-end/model/user.ts:66-75 | two users constructed at different moments are never equal |
| IntensityModel.Validate | back-end/model/intensity.ts:24-31 | accepted exactly when the label is non-empty and the order is non-zero; the label is checked first |
| IntensityModel.NewIntensity | back-end/model/intensity.ts:11-22 | a constructed intensity keeps id, label and order, or the constructor throws the validation message |
| IntensityModel.UpdateUpdateAt | back-end/model/intensity.ts:57-59 | only the update time changes, to the new date |
| IntensityModel.UpdateIsObservable | back-end/model/intensity.ts:57-69 | after an update the intensity no longer equals its former value |
| IntensityModel.UpdatedNewIntensityDiffers | back-end/model/intensity.ts:57-69 | a newly constructed intensity differs from itself once updated |
| MediaModel.Validate | back-end/model/media.ts:28-39 | accepted exactly when game, name, file and file type are present |
| MediaModel.ValidateReportsFirstMissing | back-end/model/media.ts:35-38 | the message names the first missing field in guard order |
| MediaModel.NewMedia | back-end/model/media.ts:12-26 | a constructed media keeps every supplied field |
| MediaModel.NewMediaEquality | back-end/model/media.ts:69-78 | a media equals itself and differs from one built from the same input at another moment |
| GameModel.Validate | back-end/model/game.ts:54-78 | accepted exactly when user, intensity, name, groups, a non-zero duration, explanation and tags are present |
| GameModel.ValidateReportsFirstMissing | back-end/model/game.ts:64-77 | the message names the first missing field in the order of the seven guards |
| GameModel.OnlyFalsyDurationRejected | back-end/model/game.ts:70-73 | `groups: false` and a negative duration pass; a missing or zero duration and a missing `groups` do not |
| GameModel.NewGame | back-end/model/game.ts:26-52 | a constructed game keeps every supplied field, and missing media become the empty list |
| GameModel.DifferentNamesUnequal | back-end/model/game.ts:157-170 | games built from inputs that differ only in the name are unequal |
| TagRepository.Seed | back-end/repository/tag.db.ts:3-20 | the repository starts with the four seeded labels |
| TagRepository.TagStore.GetAllTags | back-end/repository/tag.db.ts:22-24 | the stored tags themselves, in insertion order |
| TagRepository.TagStore.GetTagById | back-end/repository/tag.db.ts:26-28 | the first tag with the id, or none exactly when no tag has it |
| TagRepository.TagStore.GetTagByTag | back-end/repository/tag.db.ts:30-32 | the first tag with the label, or none exactly when no tag has it |
| TagRepository.TagStore.CreateTag | back-end/repository/tag.db.ts:34-37 | the tag is appended and returned |
| TagRepository.CreatedTagIsFound | back-end/repository/tag.db.ts:30-37 | after creating a tag, a search on its label finds it, unless an older tag has that label |
| TagRepository.CreateKeepsFoundIds | back-end/repository/tag.db.ts:26-37 | creating a tag does not change what an id lookup that already succeeded returns |
| IntensityRepository.Compare | back-end/repository/intensity.db.ts:32-35 | the comparator is the difference of a key: the order for "desc", its negation otherwise |
| IntensityRepository.Sort | back-end/repository/intensity.db.ts:31-36 | the stable sort keeps the length; its order and permutation are the rows below |
| IntensityRepository.InsertSorted | back-end/repository/intensity.db.ts:32-35 | stable insertion keeps a list sorted |
| IntensityRepository.SortSorted | back-end/repository/intensity.db.ts:32-35 | the sort's result is sorted by the comparator |
| IntensityRepository.InsertPermutes | back-end/repository/intensity.db.ts:32-35 | insertion adds exactly the new element |
| IntensityRepository.SortPermutes | back-end/repository/intensity.db.ts:32-35 | the sort is a permutation |
| IntensityRepository.SortDirection | back-end/repository/intensity.db.ts:33-34 | "desc" yields non-decreasing order values, any other order non-increasing ones |
| IntensityRepository.SortStep | back-end/repository/intensity.db.ts:32-35 | sorting one more element is inserting it into the sorted prefix |
| IntensityRepository.InsertAt | back-end/repository/intensity.db.ts:32-35 | the element goes after every element it does not precede, so equal keys keep their order |
| IntensityRepository.Seed | back-end/repository/intensity.db.ts:3-29 | the five seeded intensities with orders 1 to 5 |
| IntensityRepository.IntensityStore.GetAllIntensities | back-end/repository/intensity.db.ts:31-36 | the array is sorted in place by the comparator and returned |
| IntensityRepository.IntensityStore.GetIntensityById | back-end/repository/intensity.db.ts:38-40 | the first intensity with the id, or none exactly when none has it |
| IntensityRepository.IntensityStore.CreateIntensity | back-end/repository/intensity.db.ts:42-45 | the intensity is appended and returned |
| IntensityRepository.SeedListedByDefault | back-end/repository/intensity.db.ts:31-36 | the default listing shows the seed from highest to lowest order |
| GameRepository.GameStore.GetAllGames | back-end/repository/game.db.ts:5-7 | the stored games themselves, in insertion order |
| GameRepository.GameStore.GetGameById | back-end/repository/game.db.ts:9-11 | the first game with the id, or none exactly when none has it |
| GameRepository.GameStore.CreateGame | back-end/repository/game.db.ts:13-16 | the game is appended and returned |
| GameRepository.CreatedGameIsFound | back-end/repository/game.db.ts:9-16 | a game created under a fresh id is found by it |
| UserRepository.Seed | back-end/repository/user.db.ts:3-10 | the repository starts with John Doe under id 1 |
| UserRepository.UserStore.GetAllUsers | back-end/repository/user.db.ts:12-14 | the stored users themselves, in insertion order |
| UserRepository.UserStore.GetUserById | back-end/repository/user.db.ts:16-18 | the first user with the id, or none exactly when none has it |
| UserRepository.UserStore.CreateUser | back-end/repository/user.db.ts:20-23 | the user is appended and returned |
| UserRepository.SeedFoundById | back-end/repository/user.db.ts:3-18 | id 1 finds the seeded user whatever was created later |
| TagService.GetAllTags | back-end/service/tag.service.ts:4-6 | the repository's tags as they are |
| TagService.GetTagById | back-end/service/tag.service.ts:8-12 | succeeds exactly when a tag has the id, else fails with "Tag with id N does not exist." |
| IntensityService.GetAllIntensities | back-end/service/intensity.service.ts:4-6 | the list is sorted with order "asc" |
| IntensityService.ListedHighestOrderFirst | back-end/service/intensity.service.ts:4-6 | the listing is a permutation with non-increasing order values |
| IntensityService.GetIntensityById | back-end/service/intensity.service.ts:8-12 | succeeds exactly when an intensity has the id, else fails naming it |
| GameService.GetAllGames | back-end/service/game.service.ts:4-6 | the repository's games as they are |
| GameService.GetGameById | back-end/service/game.service.ts:8-12 | succeeds exactly when a game has the id, else fails naming it |
| UserService.Registered | back-end/service/user.service.ts:17-41 | sign-up fails with "User with username U already exists." exactly when the email or the username is taken; otherwise the account stores the hashed password |
| UserService.RegisterKeepsUnique | back-end/service/user.service.ts:23-30 | sign-up keeps emails and usernames unique among accounts, for sign-ups handled one at a time |
| UserService.InterleavedSignupsBreakUniqueness | back-end/service/user.service.ts:23-40 | two sign-ups for the same email or username whose checks both run before either is stored both succeed and leave a duplicate |
| UserService.Authentication | back-end/service/user.service.ts:43-60 | log-in succeeds only for a known email whose hash matches, and returns that email; every failure has the same message |
| UserService.SignupThenLogin | back-end/service/user.service.ts:17-60 | an account that was just registered can log in with its password |
| UserService.FailuresLookAlike | back-end/service/user.service.ts:45-50 | an unknown email and a wrong password give the same error |
| UserService.AccountStore.GetUserByUsername | back-end/service/user.service.ts:9-15 | the account with that username, or an error naming it exactly when there is none |
| UserService.AccountStore.CreateUser | back-end/service/user.service.ts:17-41 | the store grows by the registered account exactly when sign-up succeeds |
| UserService.AccountStore.Authenticate | back-end/service/user.service.ts:43-60 | the result of the log-in rule on the current accounts |
| Duration.FormatDuration | front-end/components/game/Card.tsx:15-22 | for every duration above -60 minutes, the text reads back as the same number of minutes |
| Duration.NegativeHoursDropped | front-end/components/game/Game.tsx:12-19 | a negative duration is shown as its truncated remainder, between -59 and 0 minutes |
| Duration.DurationText | front-end/components/game/Card.tsx:18-21 | each of the three texts (the same template as Game.tsx:15-18) reads back as the hours and minutes it shows |
| Duration.ParseHoursAndMinutes | front-end/components/game/Card.tsx:19 | "H uur en M minuten" reads back as H hours plus M minutes |
| GameCard.DashRuns | front-end/components/game/Card.tsx:12 | the result has no white space and is no longer than the input |
| GameCard.Slug | front-end/components/game/Card.tsx:12 | a slug has no white space and is no longer than the name |
| GameCard.SlugShape | front-end/components/game/Card.tsx:12 | a slug has no capital letters |
| GameCard.DashRunsOfWord | front-end/components/game/Card.tsx:12 | text without white space is left as it is |
| GameCard.SlugJoinsWords | front-end/components/game/Card.tsx:12 | a run of white space between words becomes one dash |
| GameCard.CardLink | front-end/components/game/Card.tsx:28 | the route reads the game's id back from the link, and the slug from the rest of the path after the id |
| GameCard.DisplayedTags | front-end/components/game/Card.tsx:62-64 | at most the first two tags are shown, in order |
| GameDetails.ShowsOwnerControls | front-end/components/game/Game.tsx:39 | the edit and delete buttons appear exactly when the viewer's id equals the owner's id; with nobody signed in, only for an owner without id |
| GameDetails.FilesView | front-end/components/game/Game.tsx:95-99 | the text under the files heading is "Bestandenbeheer" exactly when the owner controls show, and "Bestanden" otherwise |
| GameDetails.ExplanationHtml | front-end/components/game/Game.tsx:86 | no newline is left in the HTML |
| GameDetails.ExplanationHtmlKeepsText | front-end/components/game/Game.tsx:86 | turning each `<br />` back into a newline recovers an explanation without `<` |
| TagSelection.SelectTag | front-end/pages/spel/aanmaken.tsx:124-129 | selecting appends one tag |
| TagSelection.SelectCounts | front-end/pages/spel/aanmaken.tsx:124-129 | the tag is added once at the end and nothing else changes |
| TagSelection.RemoveTag | front-end/pages/spel/aanmaken.tsx:131-136 | exactly the other tags remain |
| TagSelection.RemoveCounts | front-end/pages/spel/aanmaken.tsx:131-136 | every copy of the tag goes and the other tags keep their multiplicity |
| TagSelection.RemoveAbsent | front-end/pages/spel/aanmaken.tsx:131-136 | removing a tag that is not selected changes nothing |
| TagSelection.RemoveShrinks | front-end/pages/spel/aanmaken.tsx:131-136 | removing a selected tag shortens the list |
| TagSelection.RemoveSplits | front-end/pages/spel/aanmaken.tsx:131-136 | removal keeps the order of what remains |
| TagSelection.RemoveUndoesSelect | front-end/pages/spel/aanmaken.tsx:124-136 | removing a tag just selected restores the list |
| TagSelection.RemoveIdempotent | front-end/pages/spel/aanmaken.tsx:131-136 | removing twice is removing once |
| GameForm.InitialState | front-end/components/gameForm/Form.tsx:22-30 | each supplied field is kept, `groups: false` included, and each missing field gets its default |
| GameForm.PassesMeaning | front-end/components/gameForm/Form.tsx:38-52 | name and explanation must not be blank, and the intensity id must be present and non-zero |
| GameForm.ValidateForm | front-end/components/gameForm/Form.tsx:35-56 | errors hold exactly the failing fields with their messages, and the form passes exactly when there are none |
| GameForm.HandleSubmit | front-end/components/gameForm/Form.tsx:58-69 | the game is submitted exactly when every check passes |
| GameForm.ClearError | front-end/components/gameForm/Form.tsx:96-99 | only the given field's error is cleared |
| GameForm.OnNameChange | front-end/components/gameForm/Form.tsx:96-99 | the name is replaced and everything else kept; the name error goes and the other errors stay |
| GameForm.AcceptedDraftPassesBackEnd | front-end/components/gameForm/Form.tsx:35-56 | a form that passes, sent with its user, intensity, groups and tags, passes the back end's game validation |
| GameForm.HandleTagSelect | front-end/components/gameForm/Form.tsx:71-76 | the label is appended and the rest of the form is kept |
| GameForm.RemoveTagAsWritten | front-end/components/gameForm/Form.tsx:78-83 | as written, an entry remains exactly when it is a copy of the removed label; the other fields are kept |
| GameForm.RemoveTagAsWrittenCounterexample | front-end/components/gameForm/Form.tsx:81 | removing "Buiten" from ["Buiten", "Binnen"] leaves ["Buiten"] |
| GameForm.HandleTagRemove | front-end/components/gameForm/Form.tsx:78-83 | corrected: exactly the other entries remain and the rest of the form is kept |
| GameForm.RemoveUndoesSelectInForm | front-end/components/gameForm/Form.tsx:71-83 | removing a label just selected restores the form |
| CreatePage.EmptyDraftFailsEveryCheck | front-end/pages/spel/aanmaken.tsx:105-113 | the reset form fails every check |
| CreatePage.Page.constructor | front-end/pages/spel/aanmaken.tsx:17-40 | the page starts with the empty form for John Doe, no errors, not submitting and no error message |
| CreatePage.Page.HandleSubmit | front-end/pages/spel/aanmaken.tsx:89-122 | errors are the form's failures; a game is sent exactly when all checks pass; a saved game resets the form for the same user and a failed save keeps it and sets the error message |
| CreatePage.Page.HandleTagSelect | front-end/pages/spel/aanmaken.tsx:124-129 | the tag is appended and nothing else changes |
| CreatePage.Page.HandleTagRemove | front-end/pages/spel/aanmaken.tsx:131-136 | every copy of the tag goes and nothing else changes |
| CreatePage.Page.OnNameChange | front-end/pages/spel/aanmaken.tsx:180-183 | the name is replaced and only its error cleared |
| FormTagInput.Suggestions | front-end/components/gameForm/TagInput.tsx:28-33 | only available, matching, unselected tags are suggested, never more than are available |
| FormTagInput.SuggestionsMeaning | front-end/components/gameForm/TagInput.tsx:28-33 | a tag is suggested exactly when it is available, its label contains the input ignoring case, and it is not selected |
| FormTagInput.EmptyInputSuggestsAll | front-end/components/gameForm/TagInput.tsx:28-33 | with no input and no selection every available tag is suggested |
| FormTagInput.HandleCreateTag | front-end/components/gameForm/TagInput.tsx:37-43 | blank input creates nothing and changes nothing; otherwise the selected tag is the input with only white space cut off at either end, non-blank and starting and ending with something else, and the input is reset; the create page's tag input (game/TagInput.tsx:31-37) uses the same member |
| FormTagInput.DropdownVisible | front-end/components/gameForm/TagInput.tsx:61-76 | the dropdown is open only when asked for, and then whenever it has a suggestion or an allowed create option to list |
| FormTagInput.CreateOptionShown | front-end/components/gameForm/TagInput.tsx:76 | the create option shows exactly when there is input, creation is allowed and no suggestion has that label ignoring case |
| FormTagInput.ChipRemoveArgument | front-end/components/gameForm/TagInput.tsx:96 | the button passes the label the chip shows, which is `===` to the chip's entry exactly when that entry is a plain label |
| FormTagInput.ChipRemoval | front-end/components/gameForm/TagInput.tsx:96 | with the corrected handler a label chip's button removes it and a `Tag` chip stays; with the handler as written only copies of that label remain |
| GameTagInput.Suggestions | front-end/components/game/TagInput.tsx:24-27 | only available, matching, unselected tags are suggested, never more than are available |
| GameTagInput.AsLabels | front-end/components/game/TagInput.tsx:24-27 | the selection as labels, position by position |
| GameTagInput.SuggestionsAgree | front-end/components/game/TagInput.tsx:24-27 | this input suggests the same tags as the game form's input for the same selection |
| GameTagInput.CreateOptionShown | front-end/components/game/TagInput.tsx:70 | the create option shows exactly when there is input and no suggestion has that label ignoring case |
| GameTagInput.ChipRemoval | front-end/components/game/TagInput.tsx:90 | a chip's button removes every copy of its tag |
| SignupForm.ValidateSignup | front-end/components/signup/SignupForm.tsx:19-37 | a form that passes has all three fields and a non-empty username of letters, digits, `_` and `-` |
| SignupForm.SpaceCheckRedundant | front-end/components/signup/SignupForm.tsx:24 | a username with a space already fails the character class |
| SignupForm.AcceptedIffWellFormed | front-end/components/signup/SignupForm.tsx:19-37 | accepted exactly when the username is non-empty and uses only letters, digits, `_` and `-`, and email and password are not blank |
| SignupForm.FirstFailureWins | front-end/components/signup/SignupForm.tsx:19-37 | checks fail in order: username missing, username invalid, email, password |
| SignupForm.EmptySignupRejected | front-end/components/signup/SignupForm.tsx:13-17 | the untouched form fails on the username |
| SignupForm.MapServerError | front-end/components/signup/SignupForm.tsx:53-58 | "user exists" exactly when "already exists" occurs somewhere in the message |
| SignupForm.RefusedSignupShownAsUserExists | front-end/components/signup/SignupForm.tsx:53-58 | a refusal for a taken email or username is shown as "user exists" |
| Filters.OnTagSelect | front-end/components/game/Filters.tsx:28-33 | the tag is appended and the other filters are kept |
| Filters.OnTagRemove | front-end/components/game/Filters.tsx:34-39 | every copy of the tag goes and the other filters are kept |
| Filters.RemoveUndoesSelectInFilters | front-end/components/game/Filters.tsx:28-39 | removing a tag just added restores the filters |
| Filters.NeverOffersCreation | front-end/components/game/Filters.tsx:41 | the filter bar never offers to create a tag |
| Filters.NumberOrNull | front-end/components/game/Filters.tsx:52-53 | only the empty value clears the filter; a value of white space alone is the number 0 |
| Filters.NumberOrNullRoundTrip | front-end/components/game/Filters.tsx:52-53 | the empty choice clears the filter and a written number is read back as itself |
| Filters.GroupsValue | front-end/components/game/Filters.tsx:68-74 | only "Ja" filters on group games; "Beide" filters like "Neen" |
| Js.FirstMatch | back-end/repository/tag.db.ts:27 | `find` returns an element of the list that matches, or nothing exactly when none matches |
| Js.FirstMatchIsFirst | back-end/repository/tag.db.ts:27 | every element before the one `find` returns fails the test |
| Js.Find | back-end/repository/tag.db.ts:27 | the loop returns the first element that matches |
| Js.Filter | front-end/components/game/Filters.tsx:37 | `filter` keeps exactly the matching elements |
| Js.TrimEmptyIffBlank | front-end/components/gameForm/Form.tsx:38 | `trim()` is empty exactly when the text is white space only |
| Js.TrimShape | front-end/components/gameForm/TagInput.tsx:38-39 | trimmed text neither starts nor ends with white space, and it is the original with only white space cut off at either end |
| Js.JsRemainder | front-end/components/game/Card.tsx:17 | `%` by a positive number has the sign of the dividend, is smaller than the divisor in size, and differs from the dividend by a multiple of the divisor |
| Js.ParseIntOfIntToString | front-end/components/game/Card.tsx:19 | a written integer reads back as itself |
| Js.ToNumberOfIntToString | front-end/components/game/Filters.tsx:53 | `Number` of a written integer is that integer |

## Left out

- `Game.from`, the media repository and service, the seed script, the routes, the Express app
  and the JWT helper are not part of this model.
- The front-end fetch services, rendering, `router.push`, `sessionStorage`, the confetti
  animation and the translation function are left out. The sign-up form's messages are the
  translation keys.
- Hashing, password comparison and token signing are parameters of the user service, since
  bcrypt and jsonwebtoken are external code.
- `NaN`, infinities and fractional numbers are left out. Durations, ids and orders are
  integers, and `Number(s)` is modelled for integer text only.
- `toLowerCase` is modelled for ASCII letters only.
- UserService.AccountStore.CreateUser: the user service's lookups on the repository
  (`getUserByEmail`, `getUserByUsername`) are assumed to be first-match searches. The user
  repository shown does not define them, so the service works on its own account store.
  The two checks and the append run as one step here, while the source awaits each lookup
  and the password hash between them.
- UserService.RegisterKeepsUnique: holds only for sign-ups handled one at a time. In the
  source, `await bcrypt.hash` (user.service.ts:32) runs between the uniqueness checks
  (23-30) and the append (40), so two sign-ups for the same email or username can both pass
  their checks; UserService.InterleavedSignupsBreakUniqueness shows the duplicate that
  results. Concurrency itself is not modelled.
- UserService.Registered: the `new User({...})` call of user.service.ts:33-38 is not
  modelled. That constructor (user.ts:12-35) validates a `name` the call does not pass, so
  as written it throws "Name is required." on every sign-up that passes the checks; the
  model instead stores the account. The model also assumes a refusal reaches the sign-up
  form as a JSON `message`. In this revision app.ts:16 mounts no user router and the JSON
  error handler (app.ts:35-42) is commented out; an error that arrives any other way ends
  in the form's `catch` (SignupForm.tsx:74-75) and shows the general sign-up error.
- TagRepository.TagStore.GetAllTags and IntensityRepository.IntensityStore.GetAllIntensities
  return the repository's own array in the source, so a caller that changes the result
  changes the store. The stores are modelled as values, which loses this aliasing.
- IntensityModel.UpdateUpdateAt: modelled on values. The mutation of a shared `Intensity`
  object, and its aliasing, are not captured.
- CreatePage.Page.HandleSubmit: the transient `isSubmitting == true` while the request is
  in flight is not observable in the model. The request outcome is a parameter.
- GameForm.ClearError: the source sets the name error to `undefined` instead of deleting the
  key. Both read as "no error" in the form, and the model deletes the key.
- The delete confirmation on the game page (`handleDelete`, `window.confirm`) does nothing in
  the source and is left out.
- The create page's data loading and its loading error are left out.
- The shapes of the front-end types are inferred from their use. The front-end `types`
  module is not part of this model.
- GameDetails.ShowsOwnerControls: under `user?.id === game.user.id`, a missing
  viewer does see the owner controls when the game's user has no id. The model states the
  code's behaviour; a description of the page as showing the controls only to a logged-in
  owner does not hold in that case.
- GameCard.GroupsLabel and GameDetails.GroupsLabel: the groups labels (Card.tsx:50,
  Game.tsx:68) are modelled as the choice between two literals and carry no contract; no
  other part of the card or the page depends on them.
- Filters.GroupsValue: the "Beide" option filters on individual games rather than
  clearing the filter. The model states this behaviour of the code and does not correct it.

## Findings

| source | as written | input that shows it | evidently intended | confidence | as-written member | corrected member |
|---|---|---|---|---|---|---|
| front-end/components/gameForm/Form.tsx:81 | `handleTagRemove` keeps only the tags equal to the removed one (`===`) | tags ["Buiten", "Binnen"], remove "Buiten": the result is ["Buiten"] | keep the other tags (`!==`), as the create page does | not executed | GameForm.RemoveTagAsWrittenCounterexample | GameForm.HandleTagRemove |
