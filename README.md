# Hack-or-Snooze page controller, in Dafny

A model of the browser-side controller of the Hack-or-Snooze news site
(`ui.js`). The controller keeps a small session: the current user, the
loaded story list, and the browser's persistent storage (`localStorage`,
keys `token` and `username`). It renders three story regions: the home list,
the favourites and "my stories". Its event handlers log in, sign up, log
out, submit a story, toggle a favourite and delete an own story.

The project has three modules:

- `HostName` (`hostname.dfy`): `getHostName` and the JavaScript string operations
  it uses (`indexOf`, `split("/")`, `slice`), with `join("/")` as the inverse
  of `split("/")`.
- `Stories` (`stories.dfy`): the story, user and rendered-item values. It holds
  the favourite test, the filter used when a story is deleted, and the
  rendering of one story and of a whole collection into a region.
- `Ui` (`ui.dfy`): the class `Page`. Its fields are the session and the
  three regions. It has one method per handler or helper that changes them.
  Region rebuilds are loops that empty the region and append one item per
  story. Each loop is proved against `Stories.RenderAll`.

Results of the remote API are method parameters. `User.login` and
`User.create` give the `user` of `Authenticate`. `StoryList.getStories`
gives the `fetched` list. `StoryList.addStory` gives `newStory`.
`addFavorite` and `removeFavorite` give `apiFavorites`.
`User.getLoggedInUser` is a function parameter of `CheckIfLoggedIn`.

In most handlers the API call comes before the first local change. A failed
call there stops the handler with nothing changed, so it corresponds to not
calling the method. Two handlers change state before their API call, and
there the result is an `Option`, with `None` for a failed call:

- The star handler flips the star's class (ui.js:164, ui.js:168) before
  `addFavorite` or `removeFavorite` (ui.js:165, ui.js:169). When
  `apiFavorites` is `None`, only the flip happens.
- Page load sets `currentUser` (ui.js:196) before `StoryList.getStories`
  (ui.js:234). When `fetched` is `None`, the user is set and nothing is
  fetched or rendered.

Where the source dereferences a null `currentUser`, the handler throws part
way through. The model keeps exactly the changes made before that point and
returns `ok == false`. Examples: the favourites region is already emptied, and
the clicked star has already flipped.

Some behaviour of the code that a reader might not expect:

- The code takes piece 2 of `split("/")` whenever `"://"` occurs anywhere in
  the URL (ui.js:321-322). A scheme-less URL whose first path segment holds
  `"://"` therefore gets an empty hostname (`HostName.HostNameOfSchemeInPath`).
- Deleting a story rebuilds only the "my stories" region (ui.js:180). The story
  is filtered out of `currentUser.favorites` too, but the favourites region
  keeps its item until it is next rebuilt (`Ui.Page.DeleteStory`).
- `User.getLoggedInUser` is called even when storage holds no token
  (ui.js:190-196). It receives null for each missing key
  (`Ui.Page.CheckIfLoggedIn`).

Rendering the same collection twice gives the same region. Each rebuild's
postcondition fixes the region's contents from the user and the collection
alone, whatever the region held before.

## Model

| member | source | states |
|---|---|---|
| `HostName.IndexOf` | ui.js:321 | `url.indexOf("://")`: -1 exactly when the pattern occurs nowhere; otherwise an occurrence with none before it |
| `HostName.IndexFrom` | ui.js:321 | the search behind `indexOf`: the first occurrence at or after the start position, or -1 when there is none |
| `HostName.Split` | ui.js:321-325 | `split("/")` gives at least one piece, and no piece holds a slash |
| `HostName.JoinSplit` | ui.js:322-324 | joining the pieces with `/` gives back the URL, so the split loses only the separators |
| `HostName.SplitHasThreeAfterScheme` | ui.js:321-322 | when `"://"` occurs, the split has an element at index 2, so `[2]` is always defined |
| `HostName.SliceTo` | ui.js:326 | `slice(0, n)` gives a prefix of the string, of length `n`, or the whole string when it is shorter |
| `HostName.StripWww` | ui.js:326-328 | a string that starts with `"www."` loses exactly those four characters; every other string, including every one shorter than four, is unchanged |
| `HostName.StripWwwOnce` | ui.js:326-328 | only one prefix goes: `"www." + rest` gives `rest`, so `"www.www.x"` gives `"www.x"` |
| `HostName.GetHostName` | ui.js:319-330 | the hostname contains no `/` and is no longer than the URL |
| `HostName.HostNameOfSchemeUrl` | ui.js:319-330 | for `scheme://host` followed by nothing or by a `/`-path, the hostname is `host` without one leading `"www."` |
| `HostName.HostNameOfBareUrl` | ui.js:323-328 | for a URL without `"://"`, the hostname is the part before the first `/`, without one leading `"www."` |
| `HostName.HostNameOfSchemeInPath` | ui.js:321-322 | a scheme-less URL whose first path segment holds `"://"` gets an empty hostname |
| `HostName.SplitPrefix` | ui.js:322-324 | a slash-free prefix becomes the front of the first piece and changes no other piece |
| `HostName.PieceNoLonger` | ui.js:322-324 | no piece of a split is longer than the joined string |
| `Stories.StoryIds` | ui.js:346 | `favorites.map(e => e.storyId)` has one id per story, each at the story's own position |
| `Stories.IsFavorite` | ui.js:344-352 | false without a current user; otherwise true exactly when some story in the user's favourites has that id |
| `Stories.WithoutStory` | ui.js:178-179 | the filter keeps exactly the stories whose id differs, and adds nothing |
| `Stories.WithoutStoryAppend` | ui.js:178-179 | the filter keeps relative order: filtering `a + b` gives the filtered `a` followed by the filtered `b` |
| `Stories.WithoutAbsentStory` | ui.js:178-179 | a collection with no story of that id stays exactly as it was |
| `Stories.WithoutStoryIdempotent` | ui.js:178-179 | filtering twice by one id equals filtering once |
| `Stories.RenderStory` | ui.js:267-290 | the star is filled (`fas`) exactly when the current user has the story as a favourite; the trash can is present exactly when the story is rendered as the user's own; the item keeps the story id and URL; the hostname caption is `getHostName(url)` and holds no `/` |
| `Stories.RenderAll` | ui.js:241-244 | a rebuilt region holds exactly one item per story |
| `Stories.RenderAllAt` | ui.js:238-244 | item `i` of a rebuilt region is the rendering of story `i`, so items follow collection order and nothing is duplicated |
| `Stories.RenderAllAppend` | ui.js:241-244 | rendering `a + b` renders `a`, then `b` |
| `Stories.FavoritesRegionAllStarred` | ui.js:247-252 | every item of the favourites region built from the user's own favourites has a filled star |
| `Stories.TrashOnlyOnOwnStories` | ui.js:255-261 | every item of the "my stories" region has a trash can; the other regions have none |
| `Stories.DeletedStoryNotRendered` | ui.js:178-180 | after a story is filtered out, the region rebuilt from that collection has no item with its id |
| `Stories.DeletedStoryNotFavorite` | ui.js:179 | after a story is filtered out of the favourites, it is no longer a favourite |
| `Stories.FavoritedStoryShown` | ui.js:165-166 | when the new favourites contain the story, the rebuilt favourites region shows it with a filled star |
| `Ui.GetItem` | ui.js:190-191 | `localStorage.getItem` gives the stored value exactly when the key is present, and null otherwise |
| `Ui.Page.constructor` | ui.js:18-22 | at start-up there is no current user and no story list, and storage is what the previous visit left |
| `Ui.Page.GenerateStories` | ui.js:232-245 | the fetched list is kept; the home region is emptied and becomes the rendering of every fetched story, in order |
| `Ui.Page.GenerateFavorites` | ui.js:247-253 | the favourites region is emptied and becomes the rendering of the user's favourites; without a user it stays empty and the call fails |
| `Ui.Page.GenerateMyStories` | ui.js:255-261 | the "my stories" region is emptied and becomes the rendering of the user's own stories, each with a trash can; without a user it stays empty and the call fails |
| `Ui.Page.CheckIfLoggedIn` | ui.js:188-202 | the current user becomes the API's answer for the stored token and username (null when absent); if the story fetch succeeds, the list is kept and the home region is rendered from it, and if it fails, both stay as they were |
| `Ui.Page.SyncCurrentUserToLocalStorage` | ui.js:334-339 | with a user, storage maps `token` to its login token and `username` to its username, other keys unchanged; without one, storage is untouched |
| `Ui.Page.LoginAndSubmitForm` | ui.js:208-225 | with a user, both the favourites and the "my stories" regions are rebuilt; without one, favourites is emptied and "my stories" is not reached |
| `Ui.Page.Authenticate` | ui.js:31-44 | after login or sign-up, the returned user is current, storage holds its token and username, and both of its regions are rebuilt |
| `Ui.Page.SubmitStory` | ui.js:69-82 | the new story's item is appended to the home region, and the story is appended to the user's own stories; without a user only the append to the region happens |
| `Ui.Page.LogOut` | ui.js:87-92 | storage is emptied |
| `Ui.Page.ToggleFavorite` | ui.js:161-173 | the clicked star flips, and its old class decides add or remove; with a user and a successful API call, the favourites become the API's collection and the favourites region is rebuilt from it; when the call fails or there is no user, only the flip happens; no other user field and no other region changes |
| `Ui.Page.DeleteStory` | ui.js:175-181 | the clicked story's id is filtered out of both own stories and favourites, nothing else in the user changes, and only the "my stories" region is rebuilt; without a user nothing changes |

## Left out

- DOM presentation is not modelled: show, hide, `slideToggle`, `toggle`, form resets, the navigation bar, the profile panel text and the hiding of elements (ui.js:98-148, 208-225, 294-315). It changes nothing that the session or the regions hold.
- The HTML template is not modelled: markup, attribute interpolation and escaping (ui.js:269-287). Only the abstract item record is modelled.
- The remote API (`User`, `Story`, `StoryList` and the HTTP service behind them) is not part of this model. Its results are parameters, and a failed call means the method is not called.
- `location.reload()` (ui.js:81, ui.js:91) is not modelled. It is a browser-level reset, so `SubmitStory` and `LogOut` give the state just before the reload.
- Interleaving of asynchronous handlers across `await` points is not modelled. Every handler runs as one step, so the race of two favourite toggles on `currentUser.favorites` is not captured.
- `console.log` (ui.js:147) and the page-load wiring of the handlers (ui.js:1, ui.js:24) are not modelled.
- The sign-up handler (ui.js:51-64) is modelled by the same method as login, `Ui.Page.Authenticate`. The two differ only in which API call produced the user.
- Ui.Page.ToggleFavorite: the favourites collection that the API returns is not tied to the clicked story's id, because `addFavorite` and `removeFavorite` are not part of this model.
- A `StoryList` instance is modelled by its `stories` sequence alone.
