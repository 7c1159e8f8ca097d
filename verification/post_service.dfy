/** internal/service/post_service.go: creating a post, liking it, and the
    timeline. The post table stands in for the database (internal/model/post.go
    is not part of this model; a post's likes are kept as the liking users'
    ids); the community table, the user table, the notification table and the
    broker channel are those of their own modules. */
module PostService {
  import opened Wrappers
  import opened Queue
  import Constants
  import CommunityRepository
  import UserService
  import opened Notifications

  datatype Post = Post(id: int, title: string, description: string, userId: int, likes: seq<int>)

  datatype CreatePostRequest = CreatePostRequest(title: string, description: string, userId: int, communityId: int)

  /** The payload of a published post event. */
  datatype EventData =
    | PostCreated(postId: int, userId: int, communityId: int, title: string, description: string)
    | PostLiked(postId: int, postOwnerId: int, likedByUserId: int, communityId: int)

  /** dto.PublisherEvent; `timestamp` is the Unix time of the call. */
  datatype PublisherEvent = PublisherEvent(event: string, timestamp: int, data: EventData)

  class PostTable {
    var rows: map<int, Post>
    var nextId: int

    ghost predicate Valid()
      reads this
    {
      forall id :: id in rows ==> rows[id].id == id && id < nextId
    }

    constructor ()
      ensures Valid() && rows == map[] && nextId == 1
    {
      rows, nextId := map[], 1;
    }

    /** CreatePost: inserts the post under a fresh id. */
    method Create(p: Post, dbErr: Option<Error>) returns (created: Post, err: Outcome)
      requires Valid()
      modifies this
      ensures Valid()
      ensures dbErr.Some? ==> err == Fail(Wrap("failed to create post", dbErr.value)) &&
                              rows == old(rows) && nextId == old(nextId)
      ensures dbErr.None? ==> err == Pass && created == p.(id := old(nextId)) && old(nextId) !in old(rows) &&
                              rows == old(rows)[created.id := created] && nextId == old(nextId) + 1
    {
      created := p;
      if dbErr.Some? {
        return created, Fail(Wrap("failed to create post", dbErr.value));
      }
      created := p.(id := nextId);
      rows := rows[nextId := created];
      nextId := nextId + 1;
      err := Pass;
    }

    /** GetPostDetailByID: First by primary key; gorm's ErrRecordNotFound for
        a missing id ends up wrapped. */
    function GetDetail(id: int, dbErr: Option<Error>): (r: Result<Post>)
      reads this
      ensures r.Ok? <==> dbErr.None? && id in rows
      ensures r.Ok? ==> r.value == rows[id]
      ensures r.Err? && dbErr.None? ==> r.error == Wrap("failed to get post detail", RecordNotFound)
    {
      if dbErr.Some? then Err(Wrap("failed to get post detail", dbErr.value))
      else if id !in rows then Err(Wrap("failed to get post detail", RecordNotFound))
      else Ok(rows[id])
    }

    /** UpdatePost as LikePost uses it: the post is saved with its like list. */
    method Update(id: int, p: Post, dbErr: Option<Error>) returns (err: Outcome)
      requires Valid() && id in rows && p.id == id
      modifies this
      ensures Valid() && nextId == old(nextId)
      ensures dbErr.Some? ==> err == Fail(Wrap("failed to update post", dbErr.value)) && rows == old(rows)
      ensures dbErr.None? ==> err == Pass && rows == old(rows)[id := p]
    {
      if dbErr.Some? {
        return Fail(Wrap("failed to update post", dbErr.value));
      }
      rows := rows[id := p];
      err := Pass;
    }
  }

  // ---------------------------------------------------------------------
  // CreatePost

  function CreatedEvent(postId: int, req: CreatePostRequest, now: int): (e: PublisherEvent)
    ensures e.event == Constants.PostCreatedRoutingKey && e.data.PostCreated? && e.data.postId == postId
    ensures e.data.userId == req.userId && e.data.communityId == req.communityId
    ensures e.data.title == req.title && e.data.description == req.description
  {
    PublisherEvent("post.created", now, PostCreated(postId, req.userId, req.communityId, req.title, req.description))
  }

  /** CreatePost: create the post, bump the community's post count, then
      marshal and publish "post.created". Every failure has its own message
      and undoes nothing done before it. `marshalEvent` stands for
      json.Marshal of the event; PublishMessage then marshals those bytes
      again with `marshalBytes`. */
  method CreatePost(posts: PostTable, communities: CommunityRepository.CommunityTable, rmq: Channel,
                    req: CreatePostRequest, now: int,
                    createErr: Option<Error>, countErr: Option<Error>,
                    marshalEvent: PublisherEvent -> Result<Bytes>, marshalBytes: Bytes -> Result<Bytes>,
                    publishErr: Option<Error>)
    returns (r: Result<Post>)
    requires posts.Valid() && communities.Valid() && rmq.Valid()
    modifies posts, communities, rmq
    ensures posts.Valid() && communities.Valid() && rmq.Valid()
    ensures communities.members == old(communities.members) && communities.nextId == old(communities.nextId)
    // creation fails: nothing else is touched
    ensures createErr.Some? ==>
              r == Err(New("error creating post")) && posts.rows == old(posts.rows) &&
              communities.communities == old(communities.communities) && rmq.calls == old(rmq.calls)
    ensures createErr.None? ==>
              var post := Post(old(posts.nextId), req.title, req.description, req.userId, []);
              var event := CreatedEvent(post.id, req, now);
              && post.id !in old(posts.rows)
              && posts.rows == old(posts.rows)[post.id := post]
              // the count fails: the post stays, the broker is not touched
              && (countErr.Some? ==>
                    r == Err(New("error updating community posts count")) &&
                    communities.communities == old(communities.communities) && rmq.calls == old(rmq.calls))
              && (countErr.None? ==>
                    && communities.communities ==
                         (if req.communityId in old(communities.communities)
                          then old(communities.communities)[req.communityId :=
                                 old(communities.communities)[req.communityId].(postsCount := old(communities.communities)[req.communityId].postsCount + 1)]
                          else old(communities.communities))
                    && (marshalEvent(event).Err? ==>
                          r == Err(New("error marshalling post created event")) && rmq.calls == old(rmq.calls))
                    && (marshalEvent(event).Ok? ==>
                          rmq.calls == old(rmq.calls) + PublishCalls(Constants.ExchangeName, Constants.PostCreatedRoutingKey,
                                                                     marshalEvent(event).value, marshalBytes) &&
                          r == if PublishResult(marshalEvent(event).value, marshalBytes, publishErr).Fail?
                               then Err(New("error publishing post created event"))
                               else Ok(post)))
  {
    var created, err := posts.Create(Post(0, req.title, req.description, req.userId, []), createErr);
    if err.Fail? {
      return Err(New("error creating post"));
    }
    var counted := communities.IncrementPostsCount(req.communityId, countErr);
    if counted.Fail? {
      return Err(New("error updating community posts count"));
    }
    var event := CreatedEvent(created.id, req, now);
    var eventBytes := marshalEvent(event);
    if eventBytes.Err? {
      return Err(New("error marshalling post created event"));
    }
    var published := rmq.PublishMessage(Constants.ExchangeName, Constants.PostCreatedRoutingKey,
                                        eventBytes.value, marshalBytes, publishErr);
    if published.Fail? {
      return Err(New("error publishing post created event"));
    }
    r := Ok(created);
  }

  // ---------------------------------------------------------------------
  // LikePost

  /** The like list after a like by `userId`: unchanged when the user is
      already in it, otherwise the user appended. */
  function AddLike(likes: seq<int>, userId: int): (r: seq<int>)
    ensures userId in r
    ensures forall u :: u in likes ==> u in r
    ensures forall u :: u in r ==> u in likes || u == userId
  {
    if userId in likes then likes else likes + [userId]
  }

  /** Liking twice is liking once, and a like adds at most one entry. */
  lemma AddLikeIdempotent(likes: seq<int>, userId: int)
    ensures AddLike(AddLike(likes, userId), userId) == AddLike(likes, userId)
    ensures |AddLike(likes, userId)| == |likes| + (if userId in likes then 0 else 1)
    ensures multiset(AddLike(likes, userId))[userId] == if userId in likes then multiset(likes)[userId] else 1
  {
  }

  /** The scan of post.Likes for the user. */
  method AlreadyLiked(likes: seq<int>, userId: int) returns (found: bool)
    ensures found <==> userId in likes
  {
    found := false;
    var i := 0;
    while i < |likes|
      invariant 0 <= i <= |likes|
      invariant userId !in likes[..i]
    {
      if likes[i] == userId {
        return true;
      }
      i := i + 1;
    }
    assert likes[..i] == likes;
  }

  function LikedEvent(p: Post, userId: int, now: int): (e: PublisherEvent)
    ensures e.event == Constants.PostLikedRoutingKey && e.data.PostLiked?
    ensures e.data.postId == p.id && e.data.postOwnerId == p.userId && e.data.likedByUserId == userId
    ensures e.data.communityId == 0
  {
    PublisherEvent("post.liked", now, PostLiked(p.id, p.userId, userId, 0))
  }

  /** The notification of a like: to the post's owner, from the liker, about
      the post, unread. */
  function LikeNotification(p: Post, userId: int, username: string): (n: Notification)
    ensures n.userId == p.userId && n.actorId == userId && n.postId == p.id && n.commentId == 0
    ensures n.kind == "like" && !n.read
    ensures n.message == username + " liked your post: " + p.title
  {
    Notification(p.userId, userId, p.id, 0, "like", username + " liked your post: " + p.title, false)
  }

  /** The error LikePost returns for a failed post lookup, as written: the
      error is compared with gorm.ErrRecordNotFound by `==`. */
  function LookupErrorAsWritten(e: Error): (r: Error)
    ensures e == RecordNotFound ==> r == New("post not found")
    ensures e != RecordNotFound ==> r == e
  {
    if e == RecordNotFound then New("post not found") else e
  }

  /** The error LikePost evidently means to return: "post not found" whenever
      the lookup failed because the post does not exist, wrapped or not. */
  function LookupError(e: Error): (r: Error)
    ensures Is(e, RecordNotFound) ==> r == New("post not found")
    ensures !Is(e, RecordNotFound) ==> r == e
  {
    if Is(e, RecordNotFound) then New("post not found") else e
  }

  /** The repository always wraps its error, so the `==` comparison never
      holds: as written, a missing post comes back as the wrapped
      "failed to get post detail: record not found", never "post not found";
      the corrected check recognises it. */
  lemma LookupErrorNeverNotFound(cause: Error)
    ensures LookupErrorAsWritten(Wrap("failed to get post detail", cause)) == Wrap("failed to get post detail", cause)
    ensures LookupErrorAsWritten(Wrap("failed to get post detail", RecordNotFound)) != New("post not found")
    ensures LookupError(Wrap("failed to get post detail", RecordNotFound)) == New("post not found")
  {
  }

  /** LikePost: a failed lookup ends the call; a user already in the like
      list gets success with nothing written, published or notified;
      otherwise the liker is looked up, the like is saved, "post.liked" is
      published and the owner is notified, each failure ending the call.
      The post lookup's error goes through LookupErrorAsWritten, the `==`
      comparison, so a missing post reports the repository's wrapped error. */
  method LikePost(posts: PostTable, users: UserService.UserTable, notifications: NotificationTable, rmq: Channel,
                  postId: int, userId: int, now: int,
                  lookupErr: Option<Error>, userErr: Option<Error>, updateErr: Option<Error>,
                  marshalEvent: PublisherEvent -> Result<Bytes>, marshalBytes: Bytes -> Result<Bytes>,
                  publishErr: Option<Error>, notifyErr: Option<Error>)
    returns (err: Outcome)
    requires posts.Valid() && rmq.Valid()
    modifies posts, notifications, rmq
    ensures posts.Valid() && rmq.Valid() && posts.nextId == old(posts.nextId)
    // the post lookup fails
    ensures old(posts.GetDetail(postId, lookupErr)).Err? ==>
              err == Fail(LookupErrorAsWritten(old(posts.GetDetail(postId, lookupErr)).error)) &&
              posts.rows == old(posts.rows) && notifications.rows == old(notifications.rows) && rmq.calls == old(rmq.calls)
    // a missing post: the wrapped not-found comes back, never "post not found"
    ensures lookupErr.None? && postId !in old(posts.rows) ==>
              err == Fail(Wrap("failed to get post detail", RecordNotFound)) && err != Fail(New("post not found"))
    // already liked: success and nothing else
    ensures lookupErr.None? && postId in old(posts.rows) && userId in old(posts.rows)[postId].likes ==>
              err == Pass &&
              posts.rows == old(posts.rows) && notifications.rows == old(notifications.rows) && rmq.calls == old(rmq.calls)
    ensures lookupErr.None? && postId in old(posts.rows) && userId !in old(posts.rows)[postId].likes ==>
              var post := old(posts.rows)[postId];
              var liked := post.(likes := AddLike(post.likes, userId));
              var event := LikedEvent(post, userId, now);
              // the liker is unknown: nothing is written
              && (users.GetByID(userId, userErr).Err? ==>
                    err == Fail(New("user not found")) &&
                    posts.rows == old(posts.rows) && notifications.rows == old(notifications.rows) && rmq.calls == old(rmq.calls))
              && (users.GetByID(userId, userErr).Ok? ==>
                    && (updateErr.Some? ==>
                          err == Fail(Wrap("failed to update post", updateErr.value)) &&
                          posts.rows == old(posts.rows) && notifications.rows == old(notifications.rows) && rmq.calls == old(rmq.calls))
                    && (updateErr.None? ==> posts.rows == old(posts.rows)[postId := liked])
                    && (updateErr.None? && marshalEvent(event).Err? ==>
                          err == Fail(New("error marshalling post liked event")) &&
                          notifications.rows == old(notifications.rows) && rmq.calls == old(rmq.calls))
                    && (updateErr.None? && marshalEvent(event).Ok? ==>
                          rmq.calls == old(rmq.calls) + PublishCalls(Constants.ExchangeName, Constants.PostLikedRoutingKey,
                                                                     marshalEvent(event).value, marshalBytes))
                    && (updateErr.None? && marshalEvent(event).Ok? &&
                        PublishResult(marshalEvent(event).value, marshalBytes, publishErr).Fail? ==>
                          err == Fail(New("error publishing post liked event")) && notifications.rows == old(notifications.rows))
                    && (updateErr.None? && marshalEvent(event).Ok? &&
                        PublishResult(marshalEvent(event).value, marshalBytes, publishErr).Pass? ==>
                          var n := LikeNotification(post, userId, users.GetByID(userId, userErr).value.username);
                          && (notifyErr.Some? ==>
                                err == Fail(Wrap("failed to create notification", notifyErr.value)) &&
                                notifications.rows == old(notifications.rows))
                          && (notifyErr.None? ==> err == Pass && notifications.rows == old(notifications.rows) + [n])))
  {
    var found := posts.GetDetail(postId, lookupErr);
    if found.Err? {
      return Fail(LookupErrorAsWritten(found.error));
    }
    var post := found.value;
    var liked := AlreadyLiked(post.likes, userId);
    if liked {
      return Pass;
    }
    var liker := users.GetByID(userId, userErr);
    if liker.Err? {
      return Fail(New("user not found"));
    }
    var updated := post.(likes := post.likes + [userId]);
    var saved := posts.Update(postId, updated, updateErr);
    if saved.Fail? {
      return saved;
    }
    var event := LikedEvent(post, userId, now);
    var eventBytes := marshalEvent(event);
    if eventBytes.Err? {
      return Fail(New("error marshalling post liked event"));
    }
    var published := rmq.PublishMessage(Constants.ExchangeName, Constants.PostLikedRoutingKey,
                                        eventBytes.value, marshalBytes, publishErr);
    if published.Fail? {
      return Fail(New("error publishing post liked event"));
    }
    err := notifications.Create(LikeNotification(post, userId, liker.value.username), notifyErr);
  }

  // ---------------------------------------------------------------------
  // GetTimelinePosts

  /** The posts of the followed users, in follow order. `fetched[i]` is the
      repository's answer to GetPostsByUserID for the i-th follow's
      followed user (each follow is one call, so a user followed twice may
      get two different answers); a failed call contributes nothing. */
  function FollowedPosts(fetched: seq<Result<seq<Post>>>): seq<Post>
  {
    if fetched == [] then []
    else
      var last := fetched[|fetched| - 1];
      FollowedPosts(fetched[..|fetched| - 1]) + if last.Ok? then last.value else []
  }

  /** A post is on the followed part of the timeline exactly when some
      follow's successful call lists it. */
  lemma {:induction false} FollowedPostsMembers(fetched: seq<Result<seq<Post>>>, p: Post)
    ensures p in FollowedPosts(fetched) <==>
              exists i :: 0 <= i < |fetched| && fetched[i].Ok? && p in fetched[i].value
  {
    if fetched != [] {
      var init := fetched[..|fetched| - 1];
      FollowedPostsMembers(init, p);
      assert forall i :: 0 <= i < |init| ==> init[i] == fetched[i];
    }
  }

  /** Follows whose calls all fail add nothing. */
  lemma {:induction false} FollowedPostsAllFailed(fetched: seq<Result<seq<Post>>>)
    requires forall i :: 0 <= i < |fetched| ==> fetched[i].Err?
    ensures FollowedPosts(fetched) == []
  {
    if fetched != [] {
      FollowedPostsAllFailed(fetched[..|fetched| - 1]);
    }
  }

  /** GetTimelinePosts with the cache missing: the user's own posts, then the
      followed users' posts; an error fetching the own posts or the follows
      is returned unchanged. `userPosts` and `follows` are the repository's
      answers for the user, `fetched` its answer for each follow in turn. */
  method GetTimelinePosts(userPosts: Result<seq<Post>>, follows: Result<seq<UserService.UserFollow>>,
                          fetched: seq<Result<seq<Post>>>)
    returns (r: Result<seq<Post>>)
    requires follows.Ok? ==> |fetched| == |follows.value|
    ensures userPosts.Err? ==> r == Err(userPosts.error)
    ensures userPosts.Ok? && follows.Err? ==> r == Err(follows.error)
    ensures userPosts.Ok? && follows.Ok? ==>
              r.Ok? && |r.value| >= |userPosts.value| && r.value[..|userPosts.value|] == userPosts.value &&
              r.value == userPosts.value + FollowedPosts(fetched)
  {
    if userPosts.Err? {
      return Err(userPosts.error);
    }
    if follows.Err? {
      return Err(follows.error);
    }
    var fs := follows.value;
    var followerPosts: seq<Post> := [];
    for i := 0 to |fs|
      invariant followerPosts == FollowedPosts(fetched[..i])
    {
      assert fetched[..i + 1][..i] == fetched[..i];
      var posts := fetched[i];
      if posts.Ok? {
        followerPosts := followerPosts + posts.value;
      }
    }
    assert fetched[..|fs|] == fetched;
    var all := userPosts.value + followerPosts;
    assert all[..|userPosts.value|] == userPosts.value;
    r := Ok(all);
  }
}
