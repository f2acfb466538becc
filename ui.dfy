/** The page controller of `ui.js`: the session state it keeps (the current
    user, the loaded story list, the browser's persistent storage) and the
    three story regions it renders, with one method per handler or helper
    that changes them.  Results of the remote API are parameters. */
module Ui {
  import opened Stories

  /** The three story lists of the page: `#all-articles-list`,
      `#favorited-articles` and `#my-articles`. */
  datatype Region = AllArticles | FavoritedArticles | MyArticles

  /** `localStorage.getItem(key)`: the stored string, or null. */
  function GetItem(storage: map<string, string>, key: string): (r: Option<string>)
    ensures r.Some? <==> key in storage
    ensures r.Some? ==> r.value == storage[key]
  {
    if key in storage then Some(storage[key]) else None
  }

  class Page {
    /** `currentUser`; null until a user is restored, logged in or signed up. */
    var currentUser: Option<User>
    /** `storyList`; null until the first fetch. */
    var storyList: Option<seq<Story>>
    /** `localStorage`, string keys to string values, surviving reloads. */
    var storage: map<string, string>
    /** The rendered items of each region, in document order. */
    var allArticles: seq<Item>
    var favoritedArticles: seq<Item>
    var myArticles: seq<Item>

    /** The state when the page script starts: nothing loaded yet, storage as
        the previous visit left it. */
    constructor (storage: map<string, string>)
      ensures currentUser == None && storyList == None && this.storage == storage
      ensures allArticles == [] && favoritedArticles == [] && myArticles == []
    {
      currentUser := None;
      storyList := None;
      this.storage := storage;
      allArticles := [];
      favoritedArticles := [];
      myArticles := [];
    }

    function RegionItems(region: Region): seq<Item>
      reads this
    {
      match region
      case AllArticles => allArticles
      case FavoritedArticles => favoritedArticles
      case MyArticles => myArticles
    }

    method SetRegion(region: Region, items: seq<Item>)
      modifies this`allArticles, this`favoritedArticles, this`myArticles
      ensures RegionItems(region) == items
      ensures forall other :: other != region ==> RegionItems(other) == old(RegionItems(other))
    {
      match region
      case AllArticles => allArticles := items;
      case FavoritedArticles => favoritedArticles := items;
      case MyArticles => myArticles := items;
    }

    /** `generateStories`: keeps the fetched list, empties the home region,
        then appends one rendered item per story in order. */
    method GenerateStories(fetched: seq<Story>)
      modifies this`storyList, this`allArticles
      ensures storyList == Some(fetched)
      ensures allArticles == RenderAll(currentUser, fetched, false)
    {
      storyList := Some(fetched);
      allArticles := [];
      var user := currentUser;
      for i := 0 to |fetched|
        invariant storyList == Some(fetched)
        invariant allArticles == RenderAll(user, fetched[..i], false)
      {
        assert fetched[..i + 1][..i] == fetched[..i];
        allArticles := allArticles + [RenderStory(user, fetched[i], false)];
      }
      assert fetched[..|fetched|] == fetched;
    }

    /** `generateFavorites`: empties the favourites region, then appends one
        item per favourite of the current user.  Without a current user the
        region is left empty and the function throws (`ok` is false). */
    method GenerateFavorites() returns (ok: bool)
      modifies this`favoritedArticles
      ensures ok <==> currentUser.Some?
      ensures favoritedArticles ==
              if ok then RenderAll(currentUser, currentUser.value.favorites, false) else []
    {
      favoritedArticles := [];
      if currentUser.None? {
        return false;
      }
      var user := currentUser;
      var stories := user.value.favorites;
      for i := 0 to |stories|
        invariant favoritedArticles == RenderAll(user, stories[..i], false)
      {
        assert stories[..i + 1][..i] == stories[..i];
        favoritedArticles := favoritedArticles + [RenderStory(user, stories[i], false)];
      }
      assert stories[..|stories|] == stories;
      ok := true;
    }

    /** `generateMyStories`: empties the own-stories region, then appends one
        item, with a trash can, per own story of the current user.  Without a
        current user the region is left empty and the function throws. */
    method GenerateMyStories() returns (ok: bool)
      modifies this`myArticles
      ensures ok <==> currentUser.Some?
      ensures myArticles ==
              if ok then RenderAll(currentUser, currentUser.value.ownStories, true) else []
    {
      myArticles := [];
      if currentUser.None? {
        return false;
      }
      var user := currentUser;
      var stories := user.value.ownStories;
      for i := 0 to |stories|
        invariant myArticles == RenderAll(user, stories[..i], true)
      {
        assert stories[..i + 1][..i] == stories[..i];
        myArticles := myArticles + [RenderStory(user, stories[i], true)];
      }
      assert stories[..|stories|] == stories;
      ok := true;
    }

    /** `checkIfLoggedIn`: asks the API for the user matching the stored token
        and username (each null when absent) and makes that the current user,
        then fetches and renders the home list.  `fetched` is what
        `StoryList.getStories` returned, or `None` when that call failed: the
        user is then already set and the story list and home region are left
        as they were (`ok` is false). */
    method CheckIfLoggedIn(getLoggedInUser: (Option<string>, Option<string>) -> Option<User>,
                           fetched: Option<seq<Story>>)
      returns (ok: bool)
      modifies this`currentUser, this`storyList, this`allArticles
      ensures currentUser == getLoggedInUser(GetItem(storage, "token"), GetItem(storage, "username"))
      ensures ok <==> fetched.Some?
      ensures ok ==> storyList == fetched && allArticles == RenderAll(currentUser, fetched.value, false)
      ensures !ok ==> storyList == old(storyList) && allArticles == old(allArticles)
    {
      var token := GetItem(storage, "token");
      var username := GetItem(storage, "username");
      currentUser := getLoggedInUser(token, username);
      if fetched.None? {
        return false;
      }
      GenerateStories(fetched.value);
      ok := true;
    }

    /** `syncCurrentUserToLocalStorage`: stores the current user's token and
        username; without a current user storage is left as it is. */
    method SyncCurrentUserToLocalStorage()
      modifies this`storage
      ensures currentUser.Some? ==>
                storage == old(storage)["token" := currentUser.value.loginToken]
                                       ["username" := currentUser.value.username]
      ensures currentUser.None? ==> storage == old(storage)
    {
      if currentUser.Some? {
        storage := storage["token" := currentUser.value.loginToken];
        storage := storage["username" := currentUser.value.username];
      }
    }

    /** `loginAndSubmitForm`: rebuilds the favourites region and then the
        own-stories region; the second is not reached when the first throws. */
    method LoginAndSubmitForm()
      modifies this`favoritedArticles, this`myArticles
      ensures currentUser.Some? ==>
                favoritedArticles == RenderAll(currentUser, currentUser.value.favorites, false) &&
                myArticles == RenderAll(currentUser, currentUser.value.ownStories, true)
      ensures currentUser.None? ==> favoritedArticles == [] && myArticles == old(myArticles)
    {
      var ok := GenerateFavorites();
      if ok {
        ok := GenerateMyStories();
      }
    }

    /** The login and sign-up submit handlers after the API has returned the
        user: that user becomes current, its token and username are stored,
        and the favourites and own-stories regions are rebuilt for it. */
    method Authenticate(user: User)
      modifies this`currentUser, this`storage, this`favoritedArticles, this`myArticles
      ensures currentUser == Some(user)
      ensures storage == old(storage)["token" := user.loginToken]["username" := user.username]
      ensures GetItem(storage, "token") == Some(user.loginToken)
      ensures GetItem(storage, "username") == Some(user.username)
      ensures favoritedArticles == RenderAll(Some(user), user.favorites, false)
      ensures myArticles == RenderAll(Some(user), user.ownStories, true)
    {
      currentUser := Some(user);
      SyncCurrentUserToLocalStorage();
      LoginAndSubmitForm();
    }

    /** The story submit handler after the API has returned `newStory`: its
        item is appended to the home region and the story to the current
        user's own stories.  Without a current user the push throws after the
        item was appended (`ok` is false). */
    method SubmitStory(newStory: Story) returns (ok: bool)
      modifies this`allArticles, this`currentUser
      ensures allArticles == old(allArticles) + [RenderStory(old(currentUser), newStory, false)]
      ensures ok <==> old(currentUser).Some?
      ensures ok ==> currentUser ==
                     Some(old(currentUser).value.(ownStories := old(currentUser).value.ownStories + [newStory]))
      ensures !ok ==> currentUser == old(currentUser)
    {
      var item := RenderStory(currentUser, newStory, false);
      allArticles := allArticles + [item];
      if currentUser.None? {
        return false;
      }
      var user := currentUser.value;
      currentUser := Some(user.(ownStories := user.ownStories + [newStory]));
      ok := true;
    }

    /** The logout handler: empties storage. */
    method LogOut()
      modifies this`storage
      ensures storage == map[]
    {
      storage := map[];
    }

    /** The star click handler on item `index` of `region`.  The star's own
        class decides the direction: an outlined star turns filled and the
        story is added (`added`), a filled one turns outlined and the story is
        removed.  `apiFavorites` is what `addFavorite` or `removeFavorite`
        returned, or `None` when that call failed.  A returned collection
        replaces the user's favourites and the favourites region is rebuilt
        from it.  The star has already flipped when the call fails, and it
        has also flipped when there is no current user and the handler throws
        on the null `currentUser`; in both cases nothing else changes (`ok` is
        false). */
    method ToggleFavorite(region: Region, index: nat, apiFavorites: Option<seq<Story>>)
      returns (added: bool, ok: bool)
      requires index < |RegionItems(region)|
      modifies this`currentUser, this`allArticles, this`favoritedArticles, this`myArticles
      ensures added == !old(RegionItems(region)[index].starFilled)
      ensures ok <==> old(currentUser).Some? && apiFavorites.Some?
      ensures ok ==> currentUser == Some(old(currentUser).value.(favorites := apiFavorites.value))
      ensures ok ==> favoritedArticles == RenderAll(currentUser, apiFavorites.value, false)
      ensures !ok ==> currentUser == old(currentUser)
      ensures region != FavoritedArticles || !ok ==>
                RegionItems(region) ==
                old(RegionItems(region))[index := old(RegionItems(region)[index]).(starFilled := added)]
      ensures forall other :: other != region && (other != FavoritedArticles || !ok) ==>
                RegionItems(other) == old(RegionItems(other))
    {
      var items := RegionItems(region);
      added := !items[index].starFilled;
      SetRegion(region, items[index := items[index].(starFilled := added)]);
      if currentUser.None? || apiFavorites.None? {
        return added, false;
      }
      var user := currentUser.value;
      currentUser := Some(user.(favorites := apiFavorites.value));
      ok := GenerateFavorites();
    }

    /** The trash-can click handler on item `index` of the own-stories region:
        after the API removed the story, it is filtered out of the user's own
        stories and favourites, and the own-stories region is rebuilt; the
        favourites and home regions are not.  Without a current user the
        filter throws and nothing changes (`ok` is false). */
    method DeleteStory(index: nat) returns (ok: bool)
      requires index < |myArticles|
      modifies this`currentUser, this`myArticles
      ensures ok <==> old(currentUser).Some?
      ensures ok ==>
                var storyId := old(myArticles)[index].storyId;
                var user := old(currentUser).value;
                currentUser == Some(user.(ownStories := WithoutStory(user.ownStories, storyId),
                                          favorites := WithoutStory(user.favorites, storyId))) &&
                myArticles == RenderAll(currentUser, currentUser.value.ownStories, true)
      ensures !ok ==> currentUser == old(currentUser) && myArticles == old(myArticles)
    {
      var storyId := myArticles[index].storyId;
      if currentUser.None? {
        return false;
      }
      var user := currentUser.value;
      currentUser := Some(user.(ownStories := WithoutStory(user.ownStories, storyId)));
      var user' := currentUser.value;
      currentUser := Some(user'.(favorites := WithoutStory(user'.favorites, storyId)));
      ok := GenerateMyStories();
    }
  }
}
