/** The values the page works with (stories, users, rendered list items) and
    the pure logic over them: the favourite test (`checkStoryIsFavorite`), the
    story filter used on deletion, and the rendering of one story
    (`generateStoryHTML`) and of a whole collection into a region. */
module Stories {
  import opened HostName

  datatype Option<T> = None | Some(value: T)

  /** A story as the page reads it from the API client. */
  datatype Story = Story(storyId: string, title: string, author: string, url: string,
                         username: string, createdAt: string)

  /** A user as the page reads it from the API client. */
  datatype User = User(username: string, name: string, createdAt: string, loginToken: string,
                       favorites: seq<Story>, ownStories: seq<Story>)

  /** What `generateStoryHTML` renders for one story, without the markup:
      the list item's id, whether it carries a trash can, whether its star is
      filled (`fas`) rather than outlined (`far`), the link, and the three
      captions. */
  datatype Item = Item(storyId: string, hasTrash: bool, starFilled: bool, url: string,
                       title: string, author: string, hostName: string, username: string)

  /** `stories.map(e => e.storyId)`. */
  function StoryIds(stories: seq<Story>): (ids: seq<string>)
    ensures |ids| == |stories|
    ensures forall i :: 0 <= i < |stories| ==> ids[i] == stories[i].storyId
  {
    if stories == [] then [] else [stories[0].storyId] + StoryIds(stories[1..])
  }

  /** `checkStoryIsFavorite`: false without a current user; otherwise whether
      some favourite of the user has this id. */
  function IsFavorite(currentUser: Option<User>, storyId: string): (r: bool)
    ensures r <==> currentUser.Some? &&
                   exists i :: 0 <= i < |currentUser.value.favorites| &&
                               currentUser.value.favorites[i].storyId == storyId
  {
    match currentUser
    case None => false
    case Some(user) =>
      var ids := StoryIds(user.favorites);
      assert forall i :: 0 <= i < |user.favorites| ==> ids[i] == user.favorites[i].storyId;
      storyId in ids
  }

  /** `stories.filter(e => e.storyId !== storyId)`: the stories with another id,
      each one kept, none added. */
  function WithoutStory(stories: seq<Story>, storyId: string): (r: seq<Story>)
    ensures forall s :: s in r <==> s in stories && s.storyId != storyId
    ensures |r| <= |stories|
  {
    if stories == [] then []
    else
      (if stories[0].storyId != storyId then [stories[0]] else []) +
      WithoutStory(stories[1..], storyId)
  }

  /** The filter keeps the relative order: filtering a concatenation filters
      each part and concatenates the results. */
  lemma {:induction false} WithoutStoryAppend(a: seq<Story>, b: seq<Story>, storyId: string)
    ensures WithoutStory(a + b, storyId) == WithoutStory(a, storyId) + WithoutStory(b, storyId)
  {
    if a == [] {
      assert a + b == b;
    } else {
      assert (a + b)[0] == a[0];
      assert (a + b)[1..] == a[1..] + b;
      WithoutStoryAppend(a[1..], b, storyId);
    }
  }

  /** A collection with no story of that id is left exactly as it was. */
  lemma {:induction false} WithoutAbsentStory(stories: seq<Story>, storyId: string)
    requires forall i :: 0 <= i < |stories| ==> stories[i].storyId != storyId
    ensures WithoutStory(stories, storyId) == stories
  {
    if stories != [] {
      WithoutAbsentStory(stories[1..], storyId);
      assert [stories[0]] + stories[1..] == stories;
    }
  }

  /** Filtering twice by the same id is the same as filtering once. */
  lemma WithoutStoryIdempotent(stories: seq<Story>, storyId: string)
    ensures WithoutStory(WithoutStory(stories, storyId), storyId) == WithoutStory(stories, storyId)
  {
    var once := WithoutStory(stories, storyId);
    forall i | 0 <= i < |once| ensures once[i].storyId != storyId {
      assert once[i] in once;
    }
    WithoutAbsentStory(once, storyId);
  }

  /** `generateStoryHTML(story, isMyStory)` as an abstract item: the star is
      filled exactly when the story is a favourite of the current user, the
      trash can is there exactly for an own story, and the hostname caption is
      the normalised hostname of the story's URL. */
  function RenderStory(currentUser: Option<User>, story: Story, isMyStory: bool): (item: Item)
    ensures item.storyId == story.storyId && item.url == story.url
    ensures item.starFilled <==> currentUser.Some? &&
                                 exists i :: 0 <= i < |currentUser.value.favorites| &&
                                             currentUser.value.favorites[i].storyId == story.storyId
    ensures item.hasTrash == isMyStory
    ensures item.hostName == GetHostName(story.url) && '/' !in item.hostName
  {
    Item(story.storyId, isMyStory, IsFavorite(currentUser, story.storyId), story.url,
         story.title, story.author, GetHostName(story.url), story.username)
  }

  /** The contents of a region after it is emptied and one rendered item is
      appended per story, in the order of the collection. */
  function RenderAll(currentUser: Option<User>, stories: seq<Story>, isMyStory: bool): (items: seq<Item>)
    ensures |items| == |stories|
  {
    if |stories| == 0 then []
    else
      RenderAll(currentUser, stories[..|stories| - 1], isMyStory) +
      [RenderStory(currentUser, stories[|stories| - 1], isMyStory)]
  }

  /** Item `i` of a rebuilt region is the rendering of story `i`: one item per
      story, in collection order, nothing duplicated. */
  lemma {:induction false} RenderAllAt(currentUser: Option<User>, stories: seq<Story>, isMyStory: bool, i: nat)
    requires i < |stories|
    ensures RenderAll(currentUser, stories, isMyStory)[i] == RenderStory(currentUser, stories[i], isMyStory)
    decreases |stories|
  {
    if i < |stories| - 1 {
      RenderAllAt(currentUser, stories[..|stories| - 1], isMyStory, i);
    }
  }

  /** Rendering a concatenation renders each part in turn. */
  lemma {:induction false} RenderAllAppend(currentUser: Option<User>, a: seq<Story>, b: seq<Story>, isMyStory: bool)
    ensures RenderAll(currentUser, a + b, isMyStory) ==
            RenderAll(currentUser, a, isMyStory) + RenderAll(currentUser, b, isMyStory)
    decreases |b|
  {
    if b == [] {
      assert a + b == a;
    } else {
      var b' := b[..|b| - 1];
      assert (a + b)[..|a + b| - 1] == a + b';
      assert (a + b)[|a + b| - 1] == b[|b| - 1];
      RenderAllAppend(currentUser, a, b', isMyStory);
    }
  }

  /** Every item of the favourites region, rendered from the current user's
      own favourites, shows a filled star. */
  lemma FavoritesRegionAllStarred(user: User)
    ensures forall i :: 0 <= i < |user.favorites| ==>
              RenderAll(Some(user), user.favorites, false)[i].starFilled
  {
    forall i | 0 <= i < |user.favorites|
      ensures RenderAll(Some(user), user.favorites, false)[i].starFilled
    {
      RenderAllAt(Some(user), user.favorites, false, i);
    }
  }

  /** A region rendered as "my stories" shows a trash can on every item; any
      other region shows none. */
  lemma TrashOnlyOnOwnStories(currentUser: Option<User>, stories: seq<Story>, isMyStory: bool)
    ensures forall i :: 0 <= i < |stories| ==>
              RenderAll(currentUser, stories, isMyStory)[i].hasTrash == isMyStory
  {
    forall i | 0 <= i < |stories|
      ensures RenderAll(currentUser, stories, isMyStory)[i].hasTrash == isMyStory
    {
      RenderAllAt(currentUser, stories, isMyStory, i);
    }
  }

  /** Once a story is filtered out of a collection, the region rendered from
      that collection holds no item with its id. */
  lemma DeletedStoryNotRendered(currentUser: Option<User>, stories: seq<Story>, storyId: string, isMyStory: bool)
    ensures forall i :: 0 <= i < |WithoutStory(stories, storyId)| ==>
              RenderAll(currentUser, WithoutStory(stories, storyId), isMyStory)[i].storyId != storyId
  {
    var kept := WithoutStory(stories, storyId);
    forall i | 0 <= i < |kept|
      ensures RenderAll(currentUser, kept, isMyStory)[i].storyId != storyId
    {
      RenderAllAt(currentUser, kept, isMyStory, i);
      assert kept[i] in kept;
    }
  }

  /** Once a story is filtered out of the favourites, it is no longer a favourite. */
  lemma DeletedStoryNotFavorite(user: User, storyId: string)
    ensures !IsFavorite(Some(user.(favorites := WithoutStory(user.favorites, storyId))), storyId)
  {
    var kept := WithoutStory(user.favorites, storyId);
    forall i | 0 <= i < |kept| ensures kept[i].storyId != storyId {
      assert kept[i] in kept;
    }
  }

  /** After the favourites are replaced by a collection holding the story,
      the rebuilt favourites region shows an item for it with a filled star. */
  lemma FavoritedStoryShown(user: User, storyId: string)
    requires exists i :: 0 <= i < |user.favorites| && user.favorites[i].storyId == storyId
    ensures exists j :: 0 <= j < |RenderAll(Some(user), user.favorites, false)| &&
                        RenderAll(Some(user), user.favorites, false)[j].storyId == storyId &&
                        RenderAll(Some(user), user.favorites, false)[j].starFilled
  {
    var i :| 0 <= i < |user.favorites| && user.favorites[i].storyId == storyId;
    RenderAllAt(Some(user), user.favorites, false, i);
  }
}
